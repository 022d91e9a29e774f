/** Applying a host report: the state it reaches, and that a second application does nothing. */
module HostSync {
  import opened Wrappers
  import opened HostStore
  import opened HostReport
  import opened HostPlan
  import opened HostLoad
  import opened HostTables
  import opened HostIfaces
  import opened HostAddrs
  import opened HostSections
  import opened HostGuests
  import opened HostGuestRows
  import opened HostSelf
  import opened HostParts

  /** Every table already is as the report wants it. */
  ghost predicate InSync(s: Store, dev: Id, r: Report, p: Params) {
    && DeviceSettled(s.devices, dev, r)
    && IfacesSettled(s.ifaces, dev, WantedIfaces(r), r.bmc.None?)
    && AddrsSettled(s.addrs, dev, AllClaims(r), r, p)
    && PackagesSettled(PackagesIn(s.packages, dev), r)
    && HardwareSettled(HardwareIn(s.hardware, dev), r)
    && LinksSettled(s.devices, s.ifaces, dev, r)
    && RowsSettled(s.guests, dev, r.guests, Links(s.ifaces, dev, r))
    && SelfSettled(s.devices, s.guests, dev, r)
  }

  lemma NothingPlanned(st: State, r: Report, p: Params, next: Id, dev: Device)
    requires PlanDevice(st, r, next) == (dev, Acc(next, []))
    requires PlanIfaces(next, st, r, dev.id) == Acc(next, []) && PlanAddrs(next, st, r, p, dev.id) == Acc(next, [])
    requires PlanPackages(next, st, r, dev.id) == Acc(next, []) && PlanHardware(st, r, p, dev.id) == []
    requires PlanGuests(next, st, r, p, dev.id).ops == [] && PlanSelf(st, r, dev) == []
    ensures Build(st, r, p, next).ops == [] && Build(st, r, p, next).device == dev.id
  {
    BuildIsAll(st, r, p, next);
  }

  /** A store in sync plans no write. */
  lemma InSyncPlansNothing(s: Store, st: State, r: Report, p: Params, next: Id, dev: Id)
    requires KeysAreIds(s) && IfacesOwned(s) && Normalized(r) && Loads(s, r, st) && InSync(s, dev, r, p)
    ensures Build(st, r, p, next).ops == [] && Build(st, r, p, next).device == dev
  {
    SettledDevicePlansNothing(s, st, r, next, dev);
    InSyncSections(s, st, r, p, next, dev);
    NothingPlanned(st, r, p, next, s.devices[dev]);
  }

  lemma InSyncSections(s: Store, st: State, r: Report, p: Params, next: Id, dev: Id)
    requires KeysAreIds(s) && IfacesOwned(s) && Normalized(r) && LoadsFor(s, r, st, dev) && InSync(s, dev, r, p)
    ensures PlanIfaces(next, st, r, dev) == Acc(next, []) && PlanAddrs(next, st, r, p, dev) == Acc(next, [])
    ensures PlanPackages(next, st, r, dev) == Acc(next, []) && PlanHardware(st, r, p, dev) == []
    ensures PlanGuests(next, st, r, p, dev).ops == [] && PlanSelf(st, r, s.devices[dev]) == []
  {
    SettledPlanNothing(s.ifaces, st, r, next, dev);
    SettledAddrsPlanNothing(s.addrs, st, r, p, next, dev);
    SettledPackagesPlanNothing(st, r, next, dev);
    SettledHardwarePlanNothing(st, r, p, dev);
    SettledGuestsPlanNothing(s, st, next, dev, r, p);
    SettledSelfPlansNothing(s, st, r, dev);
  }

  /** The premises of one application. */
  ghost predicate Applies(s: Store, st: State, r: Report, p: Params, next: Id) {
    && WellFormed(s) && Unused(s, next) && Normalized(r) && Loads(s, r, st) && p.conflictWindow >= 0
    && Exec(s, Build(st, r, p, next).ops).Ok?
  }

  ghost function Applied(s: Store, st: State, r: Report, p: Params, next: Id): Store
    requires Applies(s, st, r, p, next)
  {
    Exec(s, Build(st, r, p, next).ops).value
  }

  /** Whether the device existed or not, what was loaded is everything about it. */
  lemma LoadedFor(s: Store, st: State, r: Report, next: Id)
    requires WellFormed(s) && Unused(s, next) && Loads(s, r, st)
    ensures LoadsFor(s, r, st, PlanDevice(st, r, next).0.id) && PlanDevice(st, r, next).0.id != 0
  {
    if Match(st, r).Some? {
      MatchIsStored(s, r, st);
    } else {
      NoneIsNew(s, r, st, next);
    }
  }

  /** The tables of the applied store, each from its own section. */
  lemma AppliedTables(s: Store, st: State, r: Report, p: Params, next: Id)
    requires Applies(s, st, r, p, next)
    ensures var t, q := Applied(s, st, r, p, next), PartsOf(st, r, p, next);
            && t.ifaces == Fold(WriteIfaces, s.ifaces, q.ifaces)
                && t.addrs == Fold(WriteAddrs(s.clock), s.addrs, q.addrs)
            && t.packages == Fold(WritePackages, s.packages, q.packages)
                && t.hardware == Fold(WriteHardware, s.hardware, q.hardware)
            && t.guests == Fold(WriteGuests, Fold(WriteGuests, s.guests, q.guests), q.self)
            && t.devices == Fold(WriteDevices, Fold(WriteDevices, Fold(WriteDevices, s.devices, q.device), q.guests),
                q.self)
  {
    var q := PartsOf(st, r, p, next);
    BuildIsAll(st, r, p, next);
    PlanKinds(st, r, p, next);
    ExecTables(s, All(q));
    IfacesOnly(q, s.ifaces);
    AddrsOnly(q, s.addrs, s.clock);
    PackagesOnly(q, s.packages);
    HardwareOnly(q, s.hardware);
    GuestsOnly(q, s.guests);
    DevicesOnly(q, s.devices);
  }

  // ---- tables a single section writes

  lemma AppliedIfaces(s: Store, st: State, r: Report, p: Params, next: Id)
    requires Applies(s, st, r, p, next)
    ensures IfacesReached(s.ifaces, Applied(s, st, r, p, next).ifaces, PlanDevice(st, r, next).0.id, WantedIfaces(r),
          r.bmc.None?)
  {
    AppliedTables(s, st, r, p, next);
    IfacesFromSection(s, st, r, p, next);
  }

  lemma IfacesFromSection(s: Store, st: State, r: Report, p: Params, next: Id)
    requires WellFormed(s) && Unused(s, next) && Normalized(r) && Loads(s, r, st)
    ensures IfacesReached(s.ifaces, Fold(WriteIfaces, s.ifaces, PartsOf(st, r, p, next).ifaces),
          PlanDevice(st, r, next).0.id, WantedIfaces(r), r.bmc.None?)
  {
    var (dev, a0) := PlanDevice(st, r, next);
    LoadedFor(s, st, r, next);
    NextOrder(st, r, p, next);
    WantedDistinct(r);
    IfacesSettle(s.ifaces, st, r, a0.next, dev.id);
  }

  /** The reported end state of the addresses. */
  lemma AppliedAddrs(s: Store, st: State, r: Report, p: Params, next: Id)
    requires Applies(s, st, r, p, next)
    ensures Reached(s.addrs, Applied(s, st, r, p, next).addrs, next, PlanDevice(st, r, next).0.id, AllClaims(r), r, p)
  {
    var (dev, a0) := PlanDevice(st, r, next);
    var a1 := PlanIfaces(a0.next, st, r, dev.id);
    AppliedTables(s, st, r, p, next);
    LoadedFor(s, st, r, next);
    NextOrder(st, r, p, next);
    AddrsSettle(s.addrs, st, r, p, a1.next, dev.id, s.clock);
  }

  lemma AppliedRest(s: Store, st: State, r: Report, p: Params, next: Id)
    requires Applies(s, st, r, p, next)
    ensures var t, dev := Applied(s, st, r, p, next), PlanDevice(st, r, next).0.id;
            PackagesSettled(PackagesIn(t.packages, dev), r) && HardwareSettled(HardwareIn(t.hardware, dev), r)
  {
    var (dev, a0) := PlanDevice(st, r, next);
    var a2 := PlanAddrs(PlanIfaces(a0.next, st, r, dev.id).next, st, r, p, dev.id);
    AppliedTables(s, st, r, p, next);
    LoadedFor(s, st, r, next);
    PackagesSettle(s.packages, st, r, a2.next, dev.id);
    HardwareSettle(s.hardware, st, r, p, dev.id);
  }

  // ---- tables several sections write

  lemma SameCols(d: map<Id, Device>, d': map<Id, Device>, dev: Id, r: Report)
    requires d.Keys == d'.Keys && (forall i :: i in d ==> d'[i].cols == d[i].cols) && DeviceSettled(d, dev, r)
    ensures DeviceSettled(d', dev, r)
  {
    assert NameInUse(d', dev, BaseName(r)) == NameInUse(d, dev, BaseName(r));
    forall i | i in d' && LinkedTo(d'[i], r.host) ensures i == dev { assert LinkedTo(d[i], r.host); }
  }

  /** Only other devices' interfaces decide who a guest is. */
  lemma LinksSame(m: map<Id, Iface>, t: map<Id, Iface>, dev: Id, g: RGuest)
    requires (forall i :: i in m && m[i].device != dev ==> i in t && t[i] == m[i])
    requires (forall i :: i in t && t[i].device != dev ==> i in m && m[i] == t[i])
    ensures LinkOf(t, dev, g) == LinkOf(m, dev, g)
  {
    assert OwnersIn(t, dev, g.macs) == OwnersIn(m, dev, g.macs);
  }

  lemma AllLinksSame(m: map<Id, Iface>, t: map<Id, Iface>, dev: Id, r: Report)
    requires (forall i :: i in m && m[i].device != dev ==> i in t && t[i] == m[i])
    requires (forall i :: i in t && t[i].device != dev ==> i in m && m[i] == t[i])
    ensures Links(t, dev, r) == Links(m, dev, r) && LinksTo(t, dev, r, |r.guests|) == LinksTo(m, dev, r, |r.guests|)
  {
    forall k | 0 <= k < |r.guests| ensures LinkOf(t, dev, r.guests[k]) == LinkOf(m, dev, r.guests[k]) {
      LinksSame(m, t, dev, r.guests[k]);
    }
  }

  lemma LinksMoved(d: map<Id, Device>, m: map<Id, Iface>, t: map<Id, Iface>, dev: Id, r: Report)
    requires LinksSettled(d, m, dev, r)
    requires Links(t, dev, r) == Links(m, dev, r) && LinksTo(t, dev, r, |r.guests|) == LinksTo(m, dev, r, |r.guests|)
    ensures LinksSettled(d, t, dev, r)
  {
    forall k | 0 <= k < |r.guests| ensures LinkOf(t, dev, r.guests[k]) == LinkOf(m, dev, r.guests[k]) {
      assert Links(t, dev, r)[k] == Links(m, dev, r)[k];
    }
  }

  lemma RowsPointed(m: map<Id, Guest>, t: map<Id, Guest>, dev: Id, gs: seq<RGuest>, links: seq<Id>, r: Report)
    requires |links| == |gs| && RowsSettled(m, dev, gs, links) && Pointed(m, t, dev, r)
    ensures RowsSettled(t, dev, gs, links)
  {
    forall k | 0 <= k < |gs| ensures Stored(t, gs[k], dev, links[k]) {
      assert Stored(m, gs[k], dev, links[k]);
      var i :| i in m && RowMatches(m[i], gs[k], dev, links[k]);
      assert t[i] == m[i];
    }
    forall i | i in t && t[i].host == dev ensures t[i] == m[i] {}
  }

  lemma DeviceFacts(s: Store, d: map<Id, Device>, dev: Device, existed: bool)
    requires KeysAreIds(s) && d == s.devices[dev.id := dev] && dev.id > 0
    requires if existed then dev.id in s.devices && dev == s.devices[dev.id].(cols := dev.cols)
          else dev.id !in s.devices && dev.hypervisor == 0
    ensures NextTo(s.devices, d, dev)
  {}

  /** `d` is the table with one device written; its hypervisor and administrator fields are old. */
  ghost predicate NextTo(d0: map<Id, Device>, d: map<Id, Device>, dev: Device) {
    && dev.id in d && d[dev.id] == dev && (forall i :: i in d ==> d[i].id == i > 0)
    && (forall i :: i in d0 ==> i in d && d[i].hypervisor == d0[i].hypervisor && d[i].admin == d0[i].admin)
    && (forall i :: i in d0 && i != dev.id ==> d[i] == d0[i])
    && (forall i :: i in d && i !in d0 ==> i == dev.id && d[i].hypervisor == 0)
  }

  /** The device table before the guest sections. */
  lemma DeviceTable(s: Store, st: State, r: Report, next: Id)
    requires WellFormed(s) && Unused(s, next) && Normalized(r) && LoadsCandidates(s, r, st)
    ensures var (dev, acc) := PlanDevice(st, r, next);
            var d := Fold(WriteDevices, s.devices, acc.ops);
            DeviceSettled(d, dev.id, r) && NextTo(s.devices, d, dev)
  {
    DeviceWrites(s, st, r, next);
    DeviceSettles(s, st, r, next);
    var dev := PlanDevice(st, r, next).0;
    DeviceFacts(s, Fold(WriteDevices, s.devices, PlanDevice(st, r, next).1.ops), dev, Match(st, r).Some?);
  }

  ghost function D1(s: Store, st: State, r: Report, next: Id): map<Id, Device> {
    Fold(WriteDevices, s.devices, PlanDevice(st, r, next).1.ops)
  }

  /** The guest sections on the device and guest tables. */
  ghost predicate Peopled(s: Store, d1: map<Id, Device>, d: map<Id, Device>, g: map<Id, Guest>, dev: Id, r: Report) {
    && d.Keys == d1.Keys && (forall i :: i in d1 ==> d[i] == d1[i].(hypervisor := d[i].hypervisor))
    && LinksSettled(d, s.ifaces, dev, r) && GuestIds(g)
    && RowsSettled(g, dev, r.guests, Links(s.ifaces, dev, r))
  }

  lemma AfterGuests(s: Store, st: State, r: Report, p: Params, next: Id, n: Id)
    requires WellFormed(s) && Unused(s, next) && Normalized(r) && Loads(s, r, st) && next <= n
    ensures var dev := PlanDevice(st, r, next).0;
            var ops := PlanGuests(n, st, r, p, dev.id).ops;
            var d1 := D1(s, st, r, next);
            var d, g := Fold(WriteDevices, d1, ops), Fold(WriteGuests, s.guests, ops);
            && Peopled(s, d1, d, g, dev.id, r) && dev.id in d && LinkedExactly(d1, d, s.ifaces, dev.id, r)
            && (dev.hypervisor != dev.id ==> d[dev.id].hypervisor == dev.hypervisor)
            && (forall i :: i in s.guests && s.guests[i].host != dev.id ==> i in g && g[i] == s.guests[i])
            && (forall i :: i in g && g[i].host != dev.id ==> i in s.guests && s.guests[i] == g[i])
  {
    var dev := PlanDevice(st, r, next).0;
    LoadedFor(s, st, r, next);
    DeviceTable(s, st, r, next);
    LinksSettle(s, D1(s, st, r, next), st, n, dev.id, r, p);
    RowsSettle(s, s.guests, st, n, dev.id, r, p);
  }

  lemma SelfKeepsPeople(s: Store, d1: map<Id, Device>, d: map<Id, Device>, d': map<Id, Device>, g: map<Id, Guest>,
                        g': map<Id, Guest>, dev: Id, r: Report)
    requires KeysAreIds(s) && IfacesOwned(s) && Peopled(s, d1, d, g, dev, r) && Pointed(g, g', dev, r) && dev in d
    requires d' == d || exists h :: h != dev && d' == d[dev := d[dev].(hypervisor := h)]
    ensures Peopled(s, d1, d', g', dev, r)
  {
    RowsPointed(g, g', dev, r.guests, Links(s.ifaces, dev, r), r);
    SelfKeepsLinks(s, d, d', dev, r);
  }

  lemma SelfKeepsLinks(s: Store, d: map<Id, Device>, d': map<Id, Device>, dev: Id, r: Report)
    requires KeysAreIds(s) && IfacesOwned(s) && LinksSettled(d, s.ifaces, dev, r) && dev in d
    requires d' == d || exists h :: h != dev && d' == d[dev := d[dev].(hypervisor := h)]
    ensures LinksSettled(d', s.ifaces, dev, r)
  {
    forall k | 0 <= k < |r.guests| && LinkOf(s.ifaces, dev, r.guests[k]) != 0
      ensures LinkOf(s.ifaces, dev, r.guests[k]) != dev {
      LinkIsOther(s, dev, r, LinkOf(s.ifaces, dev, r.guests[k]));
    }
  }

  /** After all sections: links, rows and the device's own hypervisor. */
  lemma AfterSelf(s: Store, st: State, r: Report, p: Params, next: Id, n: Id)
    requires WellFormed(s) && Unused(s, next) && Normalized(r) && Loads(s, r, st) && next <= n
    ensures var dev := PlanDevice(st, r, next).0;
            var ops, own, d1 := PlanGuests(n, st, r, p, dev.id).ops, PlanSelf(st, r, dev), D1(s, st, r, next);
            var d, g := Fold(WriteDevices, Fold(WriteDevices, d1, ops), own),
              Fold(WriteGuests, Fold(WriteGuests, s.guests, ops), own);
            Peopled(s, d1, d, g, dev.id, r) && SelfSettled(d, g, dev.id, r)
  {
    var dev := PlanDevice(st, r, next).0;
    var ops, own, d1 := PlanGuests(n, st, r, p, dev.id).ops, PlanSelf(st, r, dev), D1(s, st, r, next);
    var d, g := Fold(WriteDevices, d1, ops), Fold(WriteGuests, s.guests, ops);
    LoadedFor(s, st, r, next);
    AfterGuests(s, st, r, p, next, n);
    SelfGuests(s.guests, g, st, r, dev);
    SelfDevices(s.guests, d, st, r, dev);
    SelfSettles(s.guests, g, d, st, r, dev);
    SelfKeepsPeople(s, d1, d, Fold(WriteDevices, d, own), g, Fold(WriteGuests, g, own), dev.id, r);
  }

  // ---- main results

  ghost predicate RowIds(t: Store) {
    (forall i :: i in t.devices ==> t.devices[i].id == i > 0) && IfaceIds(t.ifaces) && AddrIds(t.addrs)
      && GuestIds(t.guests)
  }

  /** An applied report is in sync, in a store whose rows keep their ids. */
  lemma AppliedInSync(s: Store, st: State, r: Report, p: Params, next: Id)
    requires Applies(s, st, r, p, next)
    ensures var t := Applied(s, st, r, p, next);
            InSync(t, PlanDevice(st, r, next).0.id, r, p) && IfacesOwned(t) && RowIds(t)
  {
    AppliedIfaces(s, st, r, p, next);
    AppliedAddrs(s, st, r, p, next);
    AppliedRest(s, st, r, p, next);
    AppliedPeople(s, st, r, p, next);
    Assembled(s, Applied(s, st, r, p, next), PlanDevice(st, r, next).0.id, r, p, next);
  }

  /** The device and guest tables as reported, with links judged by the interfaces of `s`. */
  ghost predicate PeopleReached(s: Store, t: Store, dev: Id, r: Report) {
    && DeviceSettled(t.devices, dev, r) && LinksSettled(t.devices, s.ifaces, dev, r) && GuestIds(t.guests)
    && RowsSettled(t.guests, dev, r.guests, Links(s.ifaces, dev, r)) && SelfSettled(t.devices, t.guests, dev, r)
    && (forall i :: i in t.devices ==> t.devices[i].id == i > 0) && (forall i :: i in s.devices ==> i in t.devices)
  }

  lemma Assembled(s: Store, t: Store, dev: Id, r: Report, p: Params, next: Id)
    requires IfacesOwned(s) && IfacesReached(s.ifaces, t.ifaces, dev, WantedIfaces(r), r.bmc.None?)
    requires Reached(s.addrs, t.addrs, next, dev, AllClaims(r), r, p) && PeopleReached(s, t, dev, r)
    requires PackagesSettled(PackagesIn(t.packages, dev), r) && HardwareSettled(HardwareIn(t.hardware, dev), r)
    ensures InSync(t, dev, r, p) && IfacesOwned(t) && RowIds(t)
  {
    AllLinksSame(s.ifaces, t.ifaces, dev, r);
    LinksMoved(t.devices, s.ifaces, t.ifaces, dev, r);
  }

  lemma AppliedPeople(s: Store, st: State, r: Report, p: Params, next: Id)
    requires Applies(s, st, r, p, next)
    ensures PeopleReached(s, Applied(s, st, r, p, next), PlanDevice(st, r, next).0.id, r)
  {
    var (dev, a0) := PlanDevice(st, r, next);
    var a3 := PlanPackages(PlanAddrs(PlanIfaces(a0.next, st, r, dev.id).next, st, r, p, dev.id).next, st, r, dev.id);
    AppliedTables(s, st, r, p, next);
    NextOrder(st, r, p, next);
    DeviceTable(s, st, r, next);
    AfterSelf(s, st, r, p, next, a3.next);
    SameCols(D1(s, st, r, next), Applied(s, st, r, p, next).devices, dev.id, r);
  }
}
