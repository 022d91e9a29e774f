/** The device section of a plan, and the section that makes the device a guest of its host. */
module HostSelf {
  import opened Wrappers
  import opened HostStore
  import opened HostReport
  import opened HostPlan
  import opened HostLoad
  import opened HostTables
  import opened HostGuestRows

  // ---- device

  predicate NameInUse(devices: map<Id, Device>, self: Id, name: string) {
    exists i :: i in devices && i != self && Lower(devices[i].cols.name) == Lower(name)
  }

  function NameFor(devices: map<Id, Device>, self: Id, r: Report): string {
    if NameInUse(devices, self, BaseName(r)) then CollisionName(BaseName(r), r.host) else BaseName(r)
  }

  lemma NameLoaded(s: Store, st: State, r: Report, self: Id)
    requires KeysAreIds(s) && LoadsCandidates(s, r, st)
    ensures DesiredName(st.byName, r, self) == NameFor(s.devices, self, r)
  {
    if i :| i in s.devices && i != self && Lower(s.devices[i].cols.name) == Lower(BaseName(r)) {
      assert s.devices[i] in st.byName;
    }
  }

  /** The device already is as reported. */
  ghost predicate DeviceSettled(devices: map<Id, Device>, dev: Id, r: Report) {
    && dev in devices
    && devices[dev].cols.inventory == r.host
    && devices[dev].cols == WantCols(devices[dev].cols, NameFor(devices, dev, r), r, false)
    && forall i :: i in devices && LinkedTo(devices[i], r.host) ==> i == dev
  }

  /** Applying a report's columns twice is applying them once, also right after a create. */
  lemma WantTwice(c: DeviceCols, name: string, r: Report, created: bool)
    ensures WantCols(WantCols(c, name, r, created), name, r, false) == WantCols(c, name, r, created)
  {}

  /** The device section writes one row: the device as the report wants it. */
  lemma DeviceWrites(s: Store, st: State, r: Report, next: Id)
    requires KeysAreIds(s) && LoadsCandidates(s, r, st)
    ensures var (dev, acc) := PlanDevice(st, r, next);
            && Fold(WriteDevices, s.devices, acc.ops) == s.devices[dev.id := dev] && next <= acc.next
            && dev.cols.inventory == r.host
            && dev.cols == WantCols(dev.cols, NameFor(s.devices, dev.id, r), r, false)
            && (Match(st, r).Some? ==>
              dev.id in s.devices && dev == s.devices[dev.id].(cols := dev.cols) && dev.id == Match(st, r).value.id)
            && (Match(st, r).None? ==> dev.id == next && dev.hypervisor == 0)
  {
    var m := Match(st, r);
    if m.Some? { MatchIsStored(s, r, st); }
    var cur := if m.Some? then m.value else BlankDevice(next);
    var ops := PlanDevice(st, r, next).1.ops;
    NameLoaded(s, st, r, cur.id);
    WantTwice(cur.cols, NameFor(s.devices, cur.id, r), r, m.None?);
    if ops != [] {
      assert ops == [] + [ops[0]];
      FoldAdd(WriteDevices, s.devices, [], ops[0]);
    }
  }

  lemma DeviceSettles(s: Store, st: State, r: Report, next: Id)
    requires WellFormed(s) && Normalized(r) && LoadsCandidates(s, r, st)
    ensures var (dev, acc) := PlanDevice(st, r, next);
            DeviceSettled(Fold(WriteDevices, s.devices, acc.ops), dev.id, r)
  {
    var (dev, acc) := PlanDevice(st, r, next);
    var d := s.devices[dev.id := dev];
    DeviceWrites(s, st, r, next);
    OthersNamed(s.devices, d, dev.id, r);
    forall i | i in d && LinkedTo(d[i], r.host) ensures i == dev.id {
      if i != dev.id { OnlyOneLinked(s, st, r, i); }
    }
  }

  lemma OthersNamed(d0: map<Id, Device>, d: map<Id, Device>, self: Id, r: Report)
    requires self in d && d == d0[self := d[self]]
    ensures NameFor(d, self, r) == NameFor(d0, self, r)
  {
    assert forall i :: i in d && i != self ==> i in d0 && d[i] == d0[i];
    assert forall i :: i in d0 && i != self ==> i in d && d[i] == d0[i];
  }

  /** Only the matched device can be linked to the host already. */
  lemma OnlyOneLinked(s: Store, st: State, r: Report, i: Id)
    requires WellFormed(s) && LoadsCandidates(s, r, st) && i in s.devices && LinkedTo(s.devices[i], r.host)
    ensures Match(st, r).Some? && Match(st, r).value.id == i
  {
    var d := st.byHost.value;
    assert LinkedTo(s.devices[d.id], s.devices[i].cols.inventory);
  }

  lemma SettledDevicePlansNothing(s: Store, st: State, r: Report, next: Id, dev: Id)
    requires KeysAreIds(s) && Normalized(r) && LoadsCandidates(s, r, st) && DeviceSettled(s.devices, dev, r)
    ensures PlanDevice(st, r, next) == (s.devices[dev], Acc(next, [])) && Match(st, r) == Some(s.devices[dev])
  {
    assert LinkedTo(s.devices[dev], r.host);
    NameLoaded(s, st, r, dev);
  }

  // ---- this device as a guest

  /** A guest row of another host that lists this device. */
  predicate Mine(g: Guest, dev: Id, r: Report) {
    g.host != dev && HasMac(g, OwnMacs(r)) && HasMac(g, Macs(WantedIfaces(r)))
  }

  function HostsIn(m: map<Id, Guest>, dev: Id, r: Report): set<Id> {
    set i | i in m && Mine(m[i], dev, r) :: m[i].host
  }

  lemma HostsLoaded(m: map<Id, Guest>, st: State, dev: Id, r: Report)
    requires GuestIds(m) && ListsGuestRows(st.guestRows, m, OwnMacs(r))
    ensures Hosts(st.guestRows, dev, Macs(WantedIfaces(r))) == HostsIn(m, dev, r)
  {
    forall h | h in HostsIn(m, dev, r) ensures h in Hosts(st.guestRows, dev, Macs(WantedIfaces(r))) {
      var i :| i in m && Mine(m[i], dev, r) && m[i].host == h;
      assert m[i] in st.guestRows;
    }
  }

  ghost predicate SelfSettled(devices: map<Id, Device>, m: map<Id, Guest>, dev: Id, r: Report) {
    |HostsIn(m, dev, r)| == 1 ==>
      && dev in devices && devices[dev].hypervisor == TheOne(HostsIn(m, dev, r))
      && forall i :: i in m && Mine(m[i], dev, r) ==> m[i].device == dev
  }

  /** Rows written: they keep everything but the guest device. */
  lemma {:induction false} SelfRowsTrack(m: map<Id, Guest>, ops: seq<Op>, rows: seq<Guest>, dev: Id,
                                         macs: set<string>, n: nat, i: Id)
    requires n <= |rows| && Fold(WriteGuests, m, ops) == m && i in m
    ensures var t := Fold(WriteGuests, m, PlanSelfRows(ops, rows, dev, macs, n));
            && i in t && t.Keys == m.Keys && t[i] == m[i].(device := t[i].device)
            && (t[i].device == m[i].device || t[i].device == dev)
            && ((exists k ::
                  && 0 <= k < n && rows[k].id == i && rows[k].host != dev
                  && HasMac(rows[k], macs) && rows[k].device != dev) ==> t[i].device == dev)
            && (t[i] != m[i] ==>
                  exists k :: 0 <= k < n && rows[k].id == i && rows[k].host != dev && HasMac(rows[k], macs))
  {
    if n > 0 {
      SelfRowsTrack(m, ops, rows, dev, macs, n - 1, i);
      var g := rows[n - 1];
      if g.host != dev && HasMac(g, macs) && g.device != dev {
        FoldAdd(WriteGuests, m, PlanSelfRows(ops, rows, dev, macs, n - 1),
          SetGuestDevice(g.id, dev, [Audit(DeviceUpdated, g.host)]));
      }
    }
  }

  lemma {:induction false} SelfRowsDevices(d: map<Id, Device>, ops: seq<Op>, rows: seq<Guest>, dev: Id,
                                           macs: set<string>, n: nat)
    requires n <= |rows|
    ensures Fold(WriteDevices, d, PlanSelfRows(ops, rows, dev, macs, n)) == Fold(WriteDevices, d, ops)
  {
    if n > 0 {
      SelfRowsDevices(d, ops, rows, dev, macs, n - 1);
      var g := rows[n - 1];
      if g.host != dev && HasMac(g, macs) && g.device != dev {
        FoldAdd(WriteDevices, d, PlanSelfRows(ops, rows, dev, macs, n - 1),
          SetGuestDevice(g.id, dev, [Audit(DeviceUpdated, g.host)]));
      }
    }
  }

  /** The rows that list this device, if they are all of one host, point at it afterwards; nothing else changes. */
  ghost predicate Pointed(m: map<Id, Guest>, t: map<Id, Guest>, dev: Id, r: Report) {
    && t.Keys == m.Keys
    && (forall i :: i in m ==>
          t[i] == if |HostsIn(m, dev, r)| == 1 && Mine(m[i], dev, r) then m[i].(device := dev) else m[i])
  }

  lemma SelfRow(m: map<Id, Guest>, ops: seq<Op>, rows: seq<Guest>, dev: Id, r: Report, i: Id)
    requires GuestIds(m) && i in m && Fold(WriteGuests, m, ops) == m
    requires forall g :: g in rows && g.host != dev ==> g.id in m && m[g.id] == g
    requires Mine(m[i], dev, r) ==> m[i] in rows
    requires forall g :: g in rows ==> HasMac(g, OwnMacs(r))
    ensures var t := Fold(WriteGuests, m, PlanSelfRows(ops, rows, dev, Macs(WantedIfaces(r)), |rows|));
            i in t && t.Keys == m.Keys && t[i] == if Mine(m[i], dev, r) then m[i].(device := dev) else m[i]
  {
    var macs := Macs(WantedIfaces(r));
    SelfRowsTrack(m, ops, rows, dev, macs, |rows|, i);
    if Mine(m[i], dev, r) {
      var k :| 0 <= k < |rows| && rows[k] == m[i];
      assert m[i].device != dev ==>
        rows[k].id == i && rows[k].host != dev && HasMac(rows[k], macs) && rows[k].device != dev;
    }
    assert forall k :: 0 <= k < |rows| && rows[k].id == i && rows[k].host != dev ==> rows[k] in rows;
  }

  /** The writes before the rows: at most the device's own hypervisor. */
  function OwnLink(dev: Device, host: Id): seq<Op> {
    if dev.hypervisor != host then [SetHypervisor(dev.id, host, [Audit(HypervisorLinked, dev.id)])] else []
  }

  lemma OwnLinkWrites(d: map<Id, Device>, m: map<Id, Guest>, dev: Device, host: Id)
    requires dev.id in d
    ensures Fold(WriteGuests, m, OwnLink(dev, host)) == m
    ensures Fold(WriteDevices, d, OwnLink(dev, host)) == if dev.hypervisor != host
          then d[dev.id := d[dev.id].(hypervisor := host)] else d
  {
    var ops := OwnLink(dev, host);
    if ops != [] {
      assert ops == [] + [ops[0]];
      FoldAdd(WriteDevices, d, [], ops[0]);
      FoldAdd(WriteGuests, m, [], ops[0]);
    }
  }

  lemma SelfGuests(g0: map<Id, Guest>, m: map<Id, Guest>, st: State, r: Report, dev: Device)
    requires GuestIds(g0) && GuestIds(m) && ListsGuestRows(st.guestRows, g0, OwnMacs(r))
    requires forall i :: i in g0 && g0[i].host != dev.id ==> i in m && m[i] == g0[i]
    requires forall i :: i in m && m[i].host != dev.id ==> i in g0 && g0[i] == m[i]
    ensures Pointed(m, Fold(WriteGuests, m, PlanSelf(st, r, dev)), dev.id, r)
  {
    SameHosts(g0, m, dev.id, r);
    HostsLoaded(g0, st, dev.id, r);
    var hosts := HostsIn(m, dev.id, r);
    if |hosts| == 1 {
      OwnLinkWrites(map[dev.id := dev], m, dev, TheOne(hosts));
      SelfRowsAll(g0, m, OwnLink(dev, TheOne(hosts)), st, r, dev.id);
    }
  }

  lemma SelfDevices(g0: map<Id, Guest>, d: map<Id, Device>, st: State, r: Report, dev: Device)
    requires GuestIds(g0) && ListsGuestRows(st.guestRows, g0, OwnMacs(r))
    requires dev.id in d && (dev.hypervisor != dev.id ==> d[dev.id].hypervisor == dev.hypervisor)
    ensures var hosts := HostsIn(g0, dev.id, r);
            Fold(WriteDevices, d, PlanSelf(st, r, dev))
              == if |hosts| == 1 then d[dev.id := d[dev.id].(hypervisor := TheOne(hosts))] else d
  {
    HostsLoaded(g0, st, dev.id, r);
    var hosts := HostsIn(g0, dev.id, r);
    if |hosts| == 1 {
      var host := TheOne(hosts);
      OwnLinkWrites(d, map[], dev, host);
      SelfRowsDevices(d, OwnLink(dev, host), st.guestRows, dev.id, Macs(WantedIfaces(r)), |st.guestRows|);
      assert host != dev.id;
    }
  }

  /** `g0` are the guest rows loaded, `m` those at the section: other hosts' rows are the same. */
  lemma SelfSettles(g0: map<Id, Guest>, m: map<Id, Guest>, d: map<Id, Device>, st: State, r: Report, dev: Device)
    requires GuestIds(g0) && GuestIds(m) && ListsGuestRows(st.guestRows, g0, OwnMacs(r))
    requires forall i :: i in g0 && g0[i].host != dev.id ==> i in m && m[i] == g0[i]
    requires forall i :: i in m && m[i].host != dev.id ==> i in g0 && g0[i] == m[i]
    requires dev.id in d && (dev.hypervisor != dev.id ==> d[dev.id].hypervisor == dev.hypervisor)
    ensures SelfSettled(Fold(WriteDevices, d, PlanSelf(st, r, dev)), Fold(WriteGuests, m, PlanSelf(st, r, dev)),
          dev.id, r)
  {
    SelfGuests(g0, m, st, r, dev);
    SelfDevices(g0, d, st, r, dev);
    SameHosts(g0, m, dev.id, r);
    PointedHosts(m, Fold(WriteGuests, m, PlanSelf(st, r, dev)), dev.id, r);
  }

  lemma SameHosts(g0: map<Id, Guest>, m: map<Id, Guest>, dev: Id, r: Report)
    requires forall i :: i in g0 && g0[i].host != dev ==> i in m && m[i] == g0[i]
    requires forall i :: i in m && m[i].host != dev ==> i in g0 && g0[i] == m[i]
    ensures HostsIn(g0, dev, r) == HostsIn(m, dev, r)
  {}

  lemma PointedHosts(m: map<Id, Guest>, t: map<Id, Guest>, dev: Id, r: Report)
    requires Pointed(m, t, dev, r)
    ensures HostsIn(t, dev, r) == HostsIn(m, dev, r)
    ensures forall i :: i in t ==> Mine(t[i], dev, r) == Mine(m[i], dev, r)
  {
    forall i | i in t ensures Mine(t[i], dev, r) == Mine(m[i], dev, r) && t[i].host == m[i].host {
      assert t[i].macs == m[i].macs;
    }
  }

  lemma SelfRowsAll(g0: map<Id, Guest>, m: map<Id, Guest>, ops: seq<Op>, st: State, r: Report, dev: Id)
    requires GuestIds(g0) && GuestIds(m) && ListsGuestRows(st.guestRows, g0, OwnMacs(r))
          && Fold(WriteGuests, m, ops) == m
    requires forall i :: i in g0 && g0[i].host != dev ==> i in m && m[i] == g0[i]
    requires forall i :: i in m && m[i].host != dev ==> i in g0 && g0[i] == m[i]
    requires |HostsIn(m, dev, r)| == 1
    ensures Pointed(m, Fold(WriteGuests, m, PlanSelfRows(ops, st.guestRows, dev, Macs(WantedIfaces(r)),
          |st.guestRows|)), dev, r)
  {
    var t := Fold(WriteGuests, m, PlanSelfRows(ops, st.guestRows, dev, Macs(WantedIfaces(r)), |st.guestRows|));
    forall i | i in m
      ensures i in t && t.Keys == m.Keys && t[i] == if Mine(m[i], dev, r) then m[i].(device := dev) else m[i]
    {
      assert Mine(m[i], dev, r) ==> m[i] in st.guestRows;
      SelfRow(m, ops, st.guestRows, dev, r, i);
    }
    assert m != map[];
  }

  lemma {:induction false} SettledSelfRows(m: map<Id, Guest>, rows: seq<Guest>, dev: Id, r: Report, n: nat)
    requires GuestIds(m) && ListsGuestRows(rows, m, OwnMacs(r)) && n <= |rows|
    requires forall i :: i in m && Mine(m[i], dev, r) ==> m[i].device == dev
    ensures PlanSelfRows([], rows, dev, Macs(WantedIfaces(r)), n) == []
  {
    if n > 0 {
      SettledSelfRows(m, rows, dev, r, n - 1);
      assert rows[n - 1] in rows;
    }
  }

  lemma SettledSelfPlansNothing(s: Store, st: State, r: Report, dev: Id)
    requires KeysAreIds(s) && ListsGuestRows(st.guestRows, s.guests, OwnMacs(r)) && dev in s.devices
          && SelfSettled(s.devices, s.guests, dev, r)
    ensures PlanSelf(st, r, s.devices[dev]) == []
  {
    HostsLoaded(s.guests, st, dev, r);
    if |HostsIn(s.guests, dev, r)| == 1 {
      SettledSelfRows(s.guests, st.guestRows, dev, r, |st.guestRows|);
    }
  }
}
