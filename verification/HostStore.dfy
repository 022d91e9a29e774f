/**
 The tables one host report reads and writes, and the transaction's writes on them
 (internal/memstore/hostsync.go, internal/hostsync/apply.go `execute`). One tenant; a row id is
 a positive number and 0 stands for the empty reference.
 */
module HostStore {
  import opened Wrappers
  import opened Ipnet
  import Allocator

  type Id = nat
  type Time = int
  type Text = Allocator.Text

  datatype ReportState = Unset | Reported | NotReported

  /** The columns host sync owns on a device; every other column is in `admin`. */
  datatype DeviceCols = DeviceCols(name: string, kind: string, virtKind: string, osType: string, osVersion: string,
                                   manufacturer: string, model: string, serial: string, primaryIp: Option<Text>,
                                   primaryIpv6: Option<Text>, managementIp: Option<Text>, reboot: bool,
                                   unattended: bool, updateStatus: string, lastSeen: Option<Time>, source: string,
                                   inventory: string, state: ReportState, lastReport: Option<Time>, digest: string)

  datatype Device = Device(id: Id, cols: DeviceCols, hypervisor: Id, admin: map<string, string>)

  datatype IfaceCols = IfaceCols(mac: string, kind: string, speed: int, enabled: bool, state: ReportState)

  datatype Iface = Iface(id: Id, device: Id, name: string, cols: IfaceCols, admin: map<string, string>)

  datatype AddrCols = AddrCols(device: Id, iface: string, mac: string, hostname: string, primary: bool,
                               lastSeen: Option<Time>, state: ReportState, previous: Id, movedAt: Option<Time>,
                               moveCount: int, windowStart: Option<Time>, conflict: bool)

  /** Where an address row's MAC came from. */
  datatype Provenance = Provenance(source: string, device: Id, seenAt: Option<Time>)

  datatype AddrRow = AddrRow(id: Id, text: Text, subnet: Id, cols: AddrCols, mac: Provenance,
                             admin: map<string, string>)

  datatype Subnet = Subnet(id: Id, name: string, cidr: Option<Cidr>, admin: map<string, string>)

  datatype Package = Package(id: Id, name: string, current: string, available: string, needsUpdate: bool,
                             security: bool, manager: string)

  datatype Guest = Guest(id: Id, host: Id, ref: string, name: string, kind: string, platform: string,
                         macs: seq<string>, device: Id, reportedAt: Time)

  /** Everything digested about the hardware, and the free bytes that are not. */
  datatype Profile = Profile(facts: map<string, string>, free: seq<int>)

  datatype Hardware = Hardware(device: Id, profile: Profile, digest: string, reportedAt: Time)

  datatype Event = DeviceCreated | DeviceUpdated | DeviceNotReported
                 | InterfaceCreated | InterfaceUpdated | InterfaceNotReported
                 | SubnetCreated | AddressCreated | AddressUpdated | AddressMoved | AddressReleased | AddressConflict
                 | AddressConflictCleared | PackagesUpdated | HardwareReported | HardwareUpdated
                 | HypervisorLinked | HypervisorUnlinked

  datatype Audit = Audit(event: Event, subject: Id)

  datatype Store = Store(devices: map<Id, Device>, ifaces: map<Id, Iface>, addrs: map<Id, AddrRow>,
                         subnets: map<Id, Subnet>, packages: map<Id, seq<Package>>, guests: map<Id, Guest>,
                         hardware: map<Id, Hardware>, audit: seq<Audit>, clock: Time)

  /** One planned write and the audit rows that record it. */
  datatype Op =
    | CreateDevice(device: Device, audit: seq<Audit>)
    | UpdateDevice(device: Device, audit: seq<Audit>)
    | CreateIface(iface: Iface, audit: seq<Audit>)
    | UpdateIface(iface: Iface, audit: seq<Audit>)
    | CreateSubnet(subnet: Subnet, audit: seq<Audit>)
    | CreateAddr(addr: AddrRow, audit: seq<Audit>)
    | UpdateAddr(addr: AddrRow, audit: seq<Audit>)
    | ReplacePackages(target: Id, packages: seq<Package>, audit: seq<Audit>)
    | ReplaceGuests(target: Id, guests: seq<Guest>, audit: seq<Audit>)
    | SetHypervisor(target: Id, ref: Id, audit: seq<Audit>)
    | SetGuestDevice(row: Id, ref: Id, audit: seq<Audit>)
    | ReplaceHardware(hardware: Hardware, audit: seq<Audit>)

  datatype TxError = ErrConflict | ErrNotFound | ErrSyncDisabled | ErrFault

  // ---- the writes of the transaction

  predicate NameTaken(devices: map<Id, Device>, id: Id, name: string) {
    exists i :: i in devices && i != id && devices[i].cols.name == name
  }

  predicate Linked(devices: map<Id, Device>, host: string) {
    exists i :: i in devices && devices[i].cols.inventory == host
  }

  predicate HasIface(ifaces: map<Id, Iface>, device: Id, name: string) {
    exists i :: i in ifaces && ifaces[i].device == device && ifaces[i].name == name
  }

  predicate HasSubnet(subnets: map<Id, Subnet>, name: string) {
    exists i :: i in subnets && subnets[i].name == name
  }

  predicate HasAddr(addrs: map<Id, AddrRow>, text: Text) {
    exists i :: i in addrs && addrs[i].text == text
  }

  /** A MAC host sync wrote is the agent's. */
  function AgentMac(mac: string, now: Time): Provenance {
    if mac == "" then Provenance("", 0, None) else Provenance("agent", 0, Some(now))
  }

  function PutAddr(cur: AddrRow, a: AddrRow, now: Time): AddrRow {
    cur.(cols := a.cols, mac := if a.cols.state == Reported then AgentMac(a.cols.mac, now) else cur.mac)
  }

  function WithoutHost(guests: map<Id, Guest>, host: Id): map<Id, Guest> {
    map i | i in guests && guests[i].host != host :: guests[i]
  }

  function PutGuests(guests: map<Id, Guest>, host: Id, rows: seq<Guest>, n: nat): map<Id, Guest>
    requires n <= |rows|
  {
    if n == 0 then guests
    else PutGuests(guests, host, rows, n - 1)[rows[n - 1].id := rows[n - 1].(host := host)]
  }

  /** The store after one write, or the write's error. */
  function Write(s: Store, op: Op): Result<Store, TxError> {
    match op
    case CreateDevice(d, _) =>
      if NameTaken(s.devices, d.id, d.cols.name) || (d.cols.inventory != "" && Linked(s.devices, d.cols.inventory))
      then Err(ErrConflict) else Ok(s.(devices := s.devices[d.id := d]))
    case UpdateDevice(d, _) =>
      if d.id !in s.devices then Err(ErrNotFound)
      else if NameTaken(s.devices, d.id, d.cols.name) then Err(ErrConflict)
      else Ok(s.(devices := s.devices[d.id := s.devices[d.id].(cols := d.cols)]))
    case CreateIface(i, _) =>
      if HasIface(s.ifaces, i.device, i.name) then Err(ErrConflict) else Ok(s.(ifaces := s.ifaces[i.id := i]))
    case UpdateIface(i, _) =>
      if i.id !in s.ifaces then Err(ErrNotFound)
      else Ok(s.(ifaces := s.ifaces[i.id := s.ifaces[i.id].(cols := i.cols)]))
    case CreateSubnet(n, _) =>
      if HasSubnet(s.subnets, n.name) then Err(ErrConflict) else Ok(s.(subnets := s.subnets[n.id := n]))
    case CreateAddr(a, _) =>
      if HasAddr(s.addrs, a.text) then Err(ErrConflict)
      else Ok(s.(addrs := s.addrs[a.id := a.(mac := AgentMac(a.cols.mac, s.clock))]))
    case UpdateAddr(a, _) =>
      if a.id !in s.addrs then Err(ErrNotFound)
      else Ok(s.(addrs := s.addrs[a.id := PutAddr(s.addrs[a.id], a, s.clock)]))
    case ReplacePackages(t, ps, _) => Ok(s.(packages := s.packages[t := ps]))
    case ReplaceGuests(t, gs, _) => Ok(s.(guests := PutGuests(WithoutHost(s.guests, t), t, gs, |gs|)))
    case SetHypervisor(t, ref, _) =>
      if t !in s.devices || t == ref then Err(ErrNotFound)
      else Ok(s.(devices := s.devices[t := s.devices[t].(hypervisor := ref)]))
    case SetGuestDevice(row, ref, _) =>
      if row !in s.guests then Err(ErrNotFound)
      else Ok(s.(guests := s.guests[row := s.guests[row].(device := ref)]))
    case ReplaceHardware(h, _) =>
      if h.device !in s.devices then Err(ErrNotFound) else Ok(s.(hardware := s.hardware[h.device := h]))
  }

  /** One write and its audit rows. */
  function Perform(s: Store, op: Op): Result<Store, TxError> {
    var w := Write(s, op);
    if w.Err? then w else Ok(w.value.(audit := w.value.audit + op.audit))
  }

  /** The writes in order, up to the first error. */
  function Exec(s: Store, ops: seq<Op>): Result<Store, TxError>
    decreases |ops|
  {
    if ops == [] then Ok(s)
    else
      var s1 := Perform(s, ops[0]);
      if s1.Err? then s1 else Exec(s1.value, ops[1..])
  }

  // ---- what any list of writes keeps

  function AuditOf(ops: seq<Op>): seq<Audit> {
    if ops == [] then [] else ops[0].audit + AuditOf(ops[1..])
  }

  lemma PerformAudit(s: Store, op: Op)
    requires Perform(s, op).Ok?
    ensures Perform(s, op).value.audit == s.audit + op.audit
  {}

  /** The log grows by exactly the writes' rows, in order. */
  lemma {:induction false} ExecAudit(s: Store, ops: seq<Op>)
    requires Exec(s, ops).Ok?
    ensures Exec(s, ops).value.audit == s.audit + AuditOf(ops)
    decreases |ops|
  {
    if ops == [] {
      assert s.audit + [] == s.audit;
    } else {
      PerformAudit(s, ops[0]);
      ExecAudit(Perform(s, ops[0]).value, ops[1..]);
      assert s.audit + ops[0].audit + AuditOf(ops[1..]) == s.audit + (ops[0].audit + AuditOf(ops[1..]));
    }
  }

  /** Administrator fields: nothing below is written by host sync. */
  ghost predicate AdminKept(s: Store, s': Store) {
    && (forall i :: i in s.devices ==>
      i in s'.devices && s'.devices[i].id == s.devices[i].id && s'.devices[i].admin == s.devices[i].admin)
    && (forall i :: i in s.ifaces ==> i in s'.ifaces && s'.ifaces[i] == s.ifaces[i].(cols := s'.ifaces[i].cols))
    && (forall i :: i in s.addrs ==> (i in s'.addrs
                                      && s'.addrs[i] == s.addrs[i].(cols := s'.addrs[i].cols, mac := s'.addrs[i].mac)))
    && (forall i :: i in s.subnets ==> i in s'.subnets && s'.subnets[i] == s.subnets[i])
  }
}
