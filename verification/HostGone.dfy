/**
 A device whose host left inventory (internal/memstore/hostsync.go `MarkDeviceNotReported`): marked,
 never deleted.
 */
module HostGone {
  import opened Wrappers
  import opened HostStore
  import opened HostLoad

  function GoneIface(i: Iface, dev: Id): Iface {
    if i.device == dev && i.cols.state == Reported then i.(cols := i.cols.(state := NotReported)) else i
  }

  function GoneAddr(a: AddrRow, dev: Id): AddrRow {
    if a.cols.device == dev && a.cols.state == Reported then a.(cols := a.cols.(state := NotReported)) else a
  }

  function GoneIfaces(m: map<Id, Iface>, dev: Id): map<Id, Iface> {
    map i | i in m :: GoneIface(m[i], dev)
  }

  function GoneAddrs(m: map<Id, AddrRow>, dev: Id): map<Id, AddrRow> {
    map i | i in m :: GoneAddr(m[i], dev)
  }

  /** The store with the device and what was reported on it marked as no longer reported. */
  function Unreport(s: Store, dev: Id): Store
    requires dev in s.devices
  {
    s.(devices := s.devices[dev := s.devices[dev].(cols := s.devices[dev].cols.(state := NotReported))],
       ifaces := GoneIfaces(s.ifaces, dev), addrs := GoneAddrs(s.addrs, dev))
  }

  /** With the audit row that says so. */
  function Noted(s: Store, dev: Id): Store {
    s.(audit := s.audit + [Audit(DeviceNotReported, dev)])
  }

  /** Some device of the host still counts as reported. */
  ghost predicate InUse(s: Store, i: Id, host: string) {
    i in s.devices && LinkedTo(s.devices[i], host) && s.devices[i].cols.state != NotReported
  }

  /** The host was marked gone: its device in use is unreported, or nothing changed when there is none. */
  ghost predicate GoneStep(s: Store, t: Store, host: string) {
    && (forall i :: InUse(s, i, host) ==> t == Noted(Unreport(s, i), i))
    && ((forall i :: !InUse(s, i, host)) ==> t == s)
  }

  lemma OnlyOne(s: Store, host: string, i: Id, j: Id)
    requires UniqueHosts(s.devices) && i in s.devices && LinkedTo(s.devices[i], host) && InUse(s, j, host)
    ensures j == i
  {
    assert LinkedTo(s.devices[i], s.devices[j].cols.inventory);
  }

  lemma GoneNone(s: Store, host: string, d: Option<Device>)
    requires UniqueHosts(s.devices)
    requires d.None? ==> forall i :: i in s.devices ==> !LinkedTo(s.devices[i], host)
    requires d.Some? ==> d.value.id in s.devices && s.devices[d.value.id] == d.value && LinkedTo(d.value, host)
    requires d.Some? ==> d.value.cols.state == NotReported
    ensures GoneStep(s, s, host)
  {
    forall j ensures !InUse(s, j, host) {
      if d.Some? && InUse(s, j, host) { OnlyOne(s, host, d.value.id, j); }
    }
  }

  lemma GoneSome(s: Store, host: string, i: Id)
    requires UniqueHosts(s.devices) && InUse(s, i, host)
    ensures GoneStep(s, Noted(Unreport(s, i), i), host)
  {
    forall j | InUse(s, j, host) ensures j == i { OnlyOne(s, host, i, j); }
  }

  /** How marking a host ended: refused for a disabled tenant, by the store's own fault, or done. */
  ghost predicate MarkEnds(on: bool, s: Store, t: Store, host: string, faulty: bool, e: Option<TxError>) {
    if e.None? then on && GoneStep(s, t, host) && AdminKept(s, t)
    else t == s && (if on then faulty && e.value == ErrFault else e.value == ErrSyncDisabled)
  }

  /** Nothing stays reported on the device, and everything else keeps its values. */
  lemma UnreportsAll(s: Store, dev: Id)
    requires dev in s.devices
    ensures var t := Unreport(s, dev);
            && (forall i :: i in t.ifaces && t.ifaces[i].device == dev ==> t.ifaces[i].cols.state != Reported)
            && (forall i :: i in t.addrs && t.addrs[i].cols.device == dev ==> t.addrs[i].cols.state != Reported)
            && (forall i :: i in s.ifaces && s.ifaces[i].device != dev ==> i in t.ifaces && t.ifaces[i] == s.ifaces[i])
            && (forall i :: i in s.addrs && s.addrs[i].cols.device != dev ==> i in t.addrs && t.addrs[i] == s.addrs[i])
  {}

  /** The state a row of the gone device ends in. */
  predicate Loses(on: bool, was: ReportState, now: ReportState) {
    now == if on && was == Reported then NotReported else was
  }

  ghost predicate DeviceStates(m: map<Id, Device>, t: map<Id, Device>, dev: Id) {
    t.Keys == m.Keys && forall i :: i in m ==>
      && t[i] == m[i].(cols := m[i].cols.(state := t[i].cols.state))
      && t[i].cols.state == if i == dev then NotReported else m[i].cols.state
  }

  ghost predicate IfaceStates(m: map<Id, Iface>, t: map<Id, Iface>, dev: Id) {
    t.Keys == m.Keys && forall i :: i in m ==>
      && t[i] == m[i].(cols := m[i].cols.(state := t[i].cols.state))
      && Loses(m[i].device == dev, m[i].cols.state, t[i].cols.state)
  }

  ghost predicate AddrStates(m: map<Id, AddrRow>, t: map<Id, AddrRow>, dev: Id) {
    t.Keys == m.Keys && forall i :: i in m ==>
      && t[i] == m[i].(cols := m[i].cols.(state := t[i].cols.state))
      && Loses(m[i].cols.device == dev, m[i].cols.state, t[i].cols.state)
  }

  /** Marking changes states and nothing else: the device's, and those of the reported rows on it; it is logged once. */
  ghost predicate OnlyStates(s: Store, t: Store, dev: Id) {
    && t == s.(devices := t.devices, ifaces := t.ifaces, addrs := t.addrs, audit := t.audit)
    && DeviceStates(s.devices, t.devices, dev) && IfaceStates(s.ifaces, t.ifaces, dev)
    && AddrStates(s.addrs, t.addrs, dev) && t.audit == s.audit + [Audit(DeviceNotReported, dev)]
  }

  lemma RowStates(s: Store, dev: Id)
    ensures IfaceStates(s.ifaces, GoneIfaces(s.ifaces, dev), dev)
    ensures AddrStates(s.addrs, GoneAddrs(s.addrs, dev), dev)
  {}

  lemma UnreportStates(s: Store, dev: Id)
    requires dev in s.devices
    ensures OnlyStates(s, Noted(Unreport(s, dev), dev), dev)
  {
    RowStates(s, dev);
    assert DeviceStates(s.devices, Unreport(s, dev).devices, dev);
  }

  /** A host marked gone with a device in use. */
  lemma GoneColumns(s: Store, t: Store, host: string, i: Id)
    requires GoneStep(s, t, host) && InUse(s, i, host)
    ensures OnlyStates(s, t, i)
  {
    UnreportStates(s, i);
  }

  lemma UnreportKeepsAdmin(s: Store, dev: Id)
    requires dev in s.devices
    ensures AdminKept(s, Noted(Unreport(s, dev), dev))
  {}

  lemma UnreportHosts(s: Store, dev: Id)
    requires UniqueHosts(s.devices) && dev in s.devices
    ensures UniqueHosts(Unreport(s, dev).devices)
  {
    var d, t := s.devices, Unreport(s, dev).devices;
    forall i, j | i in t && j in t && LinkedTo(t[i], t[j].cols.inventory) ensures i == j {
      assert LinkedTo(d[i], d[j].cols.inventory);
    }
  }

  lemma UnreportRows(s: Store, dev: Id)
    requires UniqueIfaces(s.ifaces) && UniqueTexts(s.addrs)
    ensures UniqueIfaces(GoneIfaces(s.ifaces, dev)) && UniqueTexts(GoneAddrs(s.addrs, dev))
  {}

  lemma UnreportWellFormed(s: Store, dev: Id)
    requires WellFormed(s) && dev in s.devices
    ensures WellFormed(Noted(Unreport(s, dev), dev))
  {
    UnreportHosts(s, dev);
    UnreportRows(s, dev);
  }

  lemma UnreportUnused(s: Store, dev: Id, next: Id)
    requires Unused(s, next) && dev in s.devices
    ensures Unused(Noted(Unreport(s, dev), dev), next)
  {}

  /** A marked or restored store is as fit as before. */
  lemma MarkKeeps(s: Store, t: Store, host: string, next: Id, faulty: bool, e: Option<TxError>)
    requires WellFormed(s) && Unused(s, next)
    requires if e.None? then GoneStep(s, t, host) else t == s && faulty && e.value == ErrFault
    ensures WellFormed(t) && Unused(t, next) && MarkEnds(true, s, t, host, faulty, e)
  {
    if e.Some? { return; }
    if i :| InUse(s, i, host) {
      UnreportKeepsAdmin(s, i);
      UnreportWellFormed(s, i);
      UnreportUnused(s, i, next);
    }
  }
}
