/**
 What the transaction reads for a report (internal/hostsync/apply.go `load`), and the stores it
 reads from. Lists may come in any order, so every property holds for the sorted ones the store
 returns.
 */
module HostLoad {
  import opened Wrappers
  import opened HostStore
  import opened HostReport
  import opened HostPlan

  // ---- well-formed stores

  ghost predicate KeysAreIds(s: Store) {
    && (forall i :: i in s.devices ==> s.devices[i].id == i > 0)
    && (forall i :: i in s.ifaces ==> s.ifaces[i].id == i)
    && (forall i :: i in s.addrs ==> s.addrs[i].id == i)
    && (forall i :: i in s.subnets ==> s.subnets[i].id == i)
    && (forall i :: i in s.guests ==> s.guests[i].id == i)
  }

  ghost predicate UniqueHosts(devices: map<Id, Device>) {
    forall i, j :: i in devices && j in devices && LinkedTo(devices[i], devices[j].cols.inventory) ==> i == j
  }

  ghost predicate UniqueIfaces(ifaces: map<Id, Iface>) {
    forall i, j ::
      i in ifaces && j in ifaces && ifaces[i].device == ifaces[j].device && ifaces[i].name == ifaces[j].name ==> i == j
  }

  ghost predicate UniqueTexts(addrs: map<Id, AddrRow>) {
    forall i, j :: i in addrs && j in addrs && addrs[i].text == addrs[j].text ==> i == j
  }

  ghost predicate IfacesOwned(s: Store) {
    forall i :: i in s.ifaces ==> s.ifaces[i].device in s.devices
  }

  ghost predicate WellFormed(s: Store) {
    KeysAreIds(s) && UniqueHosts(s.devices) && UniqueIfaces(s.ifaces) && UniqueTexts(s.addrs) && IfacesOwned(s)
  }

  /** Ids from `next` on are in no row, as key or reference. */
  ghost predicate Unused(s: Store, next: Id) {
    && next > 0
    && (forall i :: i in s.devices ==> i < next && s.devices[i].hypervisor < next)
    && (forall i :: i in s.ifaces ==> i < next && s.ifaces[i].device < next)
    && (forall i :: i in s.addrs ==> i < next && s.addrs[i].cols.device < next)
    && (forall i :: i in s.subnets ==> i < next)
    && (forall i :: i in s.packages ==> i < next)
    && (forall i :: i in s.guests ==> i < next && s.guests[i].host < next)
    && (forall i :: i in s.hardware ==> i < next)
  }

  // ---- lists of rows

  ghost predicate ListsDevices(rows: seq<Device>, m: map<Id, Device>, pred: Device -> bool) {
    && (forall i, j :: 0 <= i < j < |rows| ==> rows[i].id != rows[j].id)
    && (forall x :: x in rows <==> (x.id in m && m[x.id] == x && pred(x)))
  }

  ghost predicate ListsIfaces(rows: seq<Iface>, m: map<Id, Iface>, dev: Id) {
    && (forall i, j :: 0 <= i < j < |rows| ==> rows[i].id != rows[j].id)
    && (forall x :: x in rows <==> (x.id in m && m[x.id] == x && x.device == dev))
  }

  /** The texts `load` asks for: every reported address, whatever its class. */
  function Asked(r: Report): set<Text> {
    (set i, k | 0 <= i < |r.ifaces| && 0 <= k < |r.ifaces[i].addrs| :: Spelled(r.ifaces[i].addrs[k].addr))
    + (if r.bmc.Some? && r.bmc.value.address.Some? then {Spelled(r.bmc.value.address.value)} else {})
  }

  ghost predicate ListsAddrs(rows: seq<AddrRow>, m: map<Id, AddrRow>, dev: Id, asked: set<Text>) {
    && (forall i, j :: 0 <= i < j < |rows| ==> rows[i].id != rows[j].id)
    && (forall x :: x in rows <==> (x.id in m && m[x.id] == x && (x.cols.device == dev || x.text in asked)))
  }

  ghost predicate ListsSubnets(rows: seq<Subnet>, m: map<Id, Subnet>) {
    && (forall i, j :: 0 <= i < j < |rows| ==> rows[i].id != rows[j].id)
    && (forall x :: x in rows <==> (x.id in m && m[x.id] == x))
  }

  ghost predicate ListsGuests(rows: seq<Guest>, m: map<Id, Guest>, host: Id) {
    && (forall i, j :: 0 <= i < j < |rows| ==> rows[i].id != rows[j].id)
    && (forall x :: x in rows <==> (x.id in m && m[x.id] == x && x.host == host))
  }

  ghost predicate ListsGuestRows(rows: seq<Guest>, m: map<Id, Guest>, macs: set<string>) {
    && (forall i, j :: 0 <= i < j < |rows| ==> rows[i].id != rows[j].id)
    && (forall x :: x in rows <==> (x.id in m && m[x.id] == x && HasMac(x, macs)))
  }

  function GuestMacs(r: Report): set<string> {
    set i, k | 0 <= i < |r.guests| && 0 <= k < |r.guests[i].macs| :: r.guests[i].macs[k]
  }

  function OwnMacs(r: Report): set<string> {
    set i | 0 <= i < |r.ifaces| && r.ifaces[i].mac != "" :: r.ifaces[i].mac
  }

  /** Interface `i` makes its device carry the MAC. */
  predicate Carries(s: Store, i: Id, mac: string) {
    i in s.ifaces && s.ifaces[i].cols.mac != "" && Lower(s.ifaces[i].cols.mac) == mac
  }

  ghost predicate ListsOwners(os: seq<MacOwner>, s: Store, macs: set<string>)
    requires IfacesOwned(s)
  {
    forall o :: o in os <==>
      (o.mac in macs && exists i ::
        Carries(s, i, o.mac) && s.ifaces[i].device == o.device && s.devices[o.device].hypervisor == o.hypervisor)
  }

  function PackagesIn(m: map<Id, seq<Package>>, dev: Id): seq<Package> {
    if dev in m then m[dev] else []
  }

  function HardwareIn(m: map<Id, Hardware>, dev: Id): Option<Hardware> {
    if dev in m then Some(m[dev]) else None
  }

  // ---- load

  ghost predicate LinkedTo(d: Device, host: string) {
    d.cols.inventory != "" && Lower(d.cols.inventory) == Lower(host)
  }

  ghost predicate LoadsByHost(s: Store, r: Report, st: State) {
    match st.byHost
    case Some(d) => d.id in s.devices && s.devices[d.id] == d && LinkedTo(d, r.host)
    case None => forall i :: i in s.devices ==> !LinkedTo(s.devices[i], r.host)
  }

  ghost predicate LoadsCandidates(s: Store, r: Report, st: State) {
    && LoadsByHost(s, r, st)
    && (if st.byHost.None? && !IsPlaceholderSerial(r.serial)
        then ListsDevices(st.bySerial, s.devices, (d: Device) => Trim(r.serial) != "" && SameSerial(d, r.serial))
          else st.bySerial == [])
    && ListsDevices(st.byName, s.devices, (d: Device) => Lower(d.cols.name) == Lower(BaseName(r))
                                              || Lower(d.cols.name) == Lower(CollisionName(BaseName(r), r.host)))
  }

  /** Everything read for device `dev`. */
  ghost predicate LoadsFor(s: Store, r: Report, st: State, dev: Id)
    requires IfacesOwned(s)
  {
    && ListsIfaces(st.ifaces, s.ifaces, dev)
    && ListsAddrs(st.addrs, s.addrs, dev, Asked(r))
    && ListsSubnets(st.subnets, s.subnets)
    && st.packages == PackagesIn(s.packages, dev)
    && ListsGuests(st.guests, s.guests, dev)
    && ListsOwners(st.macOwners, s, GuestMacs(r))
    && ListsDevices(st.guestDevices, s.devices, (d: Device) => d.hypervisor == dev)
    && ListsGuestRows(st.guestRows, s.guests, OwnMacs(r))
    && (r.hardware.Some? ==> st.hardware == HardwareIn(s.hardware, dev))
  }

  /** Everything read when no device matches. */
  ghost predicate LoadsNone(s: Store, r: Report, st: State)
    requires IfacesOwned(s)
  {
    && st.ifaces == [] && st.packages == [] && st.guests == [] && st.guestDevices == [] && st.hardware == None
    && (forall i, j :: 0 <= i < j < |st.addrs| ==> st.addrs[i].id != st.addrs[j].id)
    && (forall x :: x in st.addrs <==> (x.id in s.addrs && s.addrs[x.id] == x && x.text in Asked(r)))
    && ListsSubnets(st.subnets, s.subnets)
    && ListsOwners(st.macOwners, s, GuestMacs(r))
    && ListsGuestRows(st.guestRows, s.guests, OwnMacs(r))
  }

  ghost predicate Loads(s: Store, r: Report, st: State)
    requires IfacesOwned(s)
  {
    && LoadsCandidates(s, r, st)
    && (if Match(st, r).Some? then LoadsFor(s, r, st, Match(st, r).value.id) else LoadsNone(s, r, st))
  }

  /** A new device has nothing yet, so loading nothing for it is loading everything. */
  lemma NoneIsNew(s: Store, r: Report, st: State, next: Id)
    requires IfacesOwned(s) && LoadsNone(s, r, st) && Unused(s, next)
    ensures LoadsFor(s, r, st, next)
  {
    forall x: Device ensures !(x.id in s.devices && s.devices[x.id] == x && x.hypervisor == next) {}
    forall x: Guest ensures !(x.id in s.guests && s.guests[x.id] == x && x.host == next) {}
  }

  lemma {:induction false} SerialHitsIn(ds: seq<Device>, serial: string)
    ensures forall d :: d in SerialHits(ds, serial) ==> d in ds
  {
    if ds != [] {
      SerialHitsIn(ds[1..], serial);
      assert forall d :: d in ds[1..] ==> d in ds;
    }
  }

  lemma {:induction false} NameHitIn(ds: seq<Device>, r: Report)
    ensures NameHit(ds, r).Some? ==> NameHit(ds, r).value in ds && !LinkedElsewhere(NameHit(ds, r).value, r.host)
  {
    if ds != [] {
      NameHitIn(ds[1..], r);
      assert forall d :: d in ds[1..] ==> d in ds;
    }
  }

  /** The matched device is a stored one: the one linked to the host, or one linked to no host. */
  lemma MatchIsStored(s: Store, r: Report, st: State)
    requires LoadsCandidates(s, r, st) && Match(st, r).Some?
    ensures var d := Match(st, r).value; d.id in s.devices && s.devices[d.id] == d && !LinkedElsewhere(d, r.host)
  {
    SerialHitsIn(st.bySerial, r.serial);
    NameHitIn(st.byName, r);
    var hits := SerialHits(st.bySerial, r.serial);
    if st.byHost.None? && |hits| == 1 {
      assert hits[0] in st.bySerial;
    }
  }
}
