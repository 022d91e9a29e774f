/**
 What one report changes (internal/hostplan): for a loaded state and a normalised report, the
 ordered list of writes. Every loop of the planner is a function of how far it has come.
 */
module HostPlan {
  import opened Wrappers
  import opened Ipnet
  import opened HostStore
  import opened HostReport
  import Allocator
  import Placement

  /** A device carrying a reported guest MAC, and its current hypervisor. */
  datatype MacOwner = MacOwner(mac: string, device: Id, hypervisor: Id)

  /** What was read for one report; rows are in the order the store listed them. */
  datatype State = State(byHost: Option<Device>, bySerial: seq<Device>, byName: seq<Device>, ifaces: seq<Iface>,
                         addrs: seq<AddrRow>, subnets: seq<Subnet>, packages: seq<Package>, guests: seq<Guest>,
                         macOwners: seq<MacOwner>, guestDevices: seq<Device>, guestRows: seq<Guest>,
                         hardware: Option<Hardware>)

  datatype Params = Params(now: Time, conflictMoves: int, conflictWindow: int)

  /** Planning so far: the next row id and the writes. */
  datatype Acc = Acc(next: Id, ops: seq<Op>)

  function Add(acc: Acc, op: Op): Acc {
    acc.(ops := acc.ops + [op])
  }

  // ---- matching

  predicate LinkedElsewhere(d: Device, host: string) {
    d.cols.inventory != "" && Lower(d.cols.inventory) != Lower(host)
  }

  predicate SameSerial(d: Device, serial: string) {
    Lower(Trim(d.cols.serial)) == Lower(Trim(serial))
  }

  function SerialHits(ds: seq<Device>, serial: string): seq<Device> {
    if ds == [] then []
    else (if SameSerial(ds[0], serial) then [ds[0]] else []) + SerialHits(ds[1..], serial)
  }

  function NameHit(ds: seq<Device>, r: Report): Option<Device> {
    if ds == [] then None
    else if Lower(ds[0].cols.name) == Lower(r.hostname) && !LinkedElsewhere(ds[0], r.host) then Some(ds[0])
    else NameHit(ds[1..], r)
  }

  /** The device a report updates, or None: the report creates one. */
  function Match(st: State, r: Report): Option<Device> {
    var hits := SerialHits(st.bySerial, r.serial);
    if st.byHost.Some? then st.byHost
    else if !IsPlaceholderSerial(r.serial) && |hits| == 1 && !LinkedElsewhere(hits[0], r.host) then Some(hits[0])
    else if r.hostname != "" && !IsGenericName(r.hostname) then NameHit(st.byName, r)
    else None
  }

  predicate TakenBy(ds: seq<Device>, self: Id, name: string) {
    exists d :: d in ds && d.id != self && Lower(d.cols.name) == Lower(name)
  }

  function DesiredName(ds: seq<Device>, r: Report, self: Id): string {
    if TakenBy(ds, self, BaseName(r)) then CollisionName(BaseName(r), r.host) else BaseName(r)
  }

  // ---- device

  function DeviceKind(role: Role, current: string, created: bool): string {
    match role
    case RoleVM => "vm"
    case RoleContainer => "container"
    case RolePhysical => if created || current == "vm" || current == "container" then "server" else current
    case RoleUnknown => if created then "server" else current
  }

  function SetIf(was: string, v: string): string {
    if v != "" then v else was
  }

  function SetAddr(was: Option<Text>, a: Option<Addr>): Option<Text> {
    if a.Some? then Some(Spelled(a.value)) else was
  }

  function SetTri(was: bool, t: Tri): bool {
    if t == TriUnknown then was else t == TriTrue
  }

  function Spelled(a: Addr): Text {
    Allocator.Text.Text(Some(a), 0)
  }

  /** The host-sync columns a report leaves on a device that had `c`. */
  function WantCols(c: DeviceCols, name: string, r: Report, created: bool): DeviceCols {
    DeviceCols(
      name, DeviceKind(r.role, c.kind, created),
      if r.role == RoleVM || r.role == RoleContainer then r.virtKind else if r.role == RolePhysical then ""
        else c.virtKind,
      SetIf(c.osType, r.osFamily), SetIf(c.osVersion, Trim(r.osName + " " + r.osVersion)),
      SetIf(c.manufacturer, r.manufacturer), SetIf(c.model, r.model), SetIf(c.serial, r.serial),
      SetAddr(c.primaryIp, r.primary4), SetAddr(c.primaryIpv6, r.primary6),
      SetAddr(c.managementIp, if r.bmc.Some? then r.bmc.value.address else None),
      SetTri(c.reboot, r.updates.reboot), SetTri(c.unattended, r.updates.automatic), r.updates.status,
      if r.lastSeen.Some? then r.lastSeen else c.lastSeen, "host_report", r.host, Reported, r.collected, r.digest)
  }

  const BLANK_COLS := DeviceCols("", "", "", "", "", "", "", "", None, None, None, false, false, "unknown", None, "",
    "", Unset, None, "")

  const NEW_DEVICE_ADMIN: map<string, string> :=
    map["status" := "active", "created_by" := "host-sync", "device_height_u" := "1"]

  function BlankDevice(id: Id): Device {
    Device(id, BLANK_COLS, 0, NEW_DEVICE_ADMIN)
  }

  /** The device as the report wants it, and the writes for it. */
  function PlanDevice(st: State, r: Report, next: Id): (p: (Device, Acc)) {
    var m := Match(st, r);
    var cur := if m.Some? then m.value else BlankDevice(next);
    var d := cur.(cols := WantCols(cur.cols, DesiredName(st.byName, r, cur.id), r, m.None?));
    if m.None? then (d, Acc(next + 1, [CreateDevice(d, [Audit(DeviceCreated, d.id)])]))
    else if d != cur then (d, Acc(next, [UpdateDevice(d, [Audit(DeviceUpdated, d.id)])]))
    else (d, Acc(next, []))
  }

  // ---- interfaces

  function FindIface(rows: seq<Iface>, n: nat, name: string): (f: Option<Iface>)
    requires n <= |rows|
    ensures f.Some? ==> f.value in rows[..n] && f.value.name == name
    ensures f.None? ==> forall i :: i in rows[..n] ==> i.name != name
  {
    if n == 0 then None
    else
      assert rows[..n] == rows[..n - 1] + [rows[n - 1]];
      if rows[n - 1].name == name then Some(rows[n - 1]) else FindIface(rows, n - 1, name)
  }

  function Refreshed(c: IfaceCols, w: Wanted): IfaceCols {
    IfaceCols(w.mac, SetIf(c.kind, w.kind), if w.speed > 0 then w.speed else c.speed, w.up, Reported)
  }

  function NewIface(id: Id, device: Id, w: Wanted): Iface {
    Iface(id, device, w.name, IfaceCols(w.mac, w.kind, w.speed, w.up, Reported), map[])
  }

  function IfaceStep(acc: Acc, rows: seq<Iface>, dev: Id, w: Wanted): Acc {
    var ex := FindIface(rows, |rows|, w.name);
    if ex.None? then
      Add(acc, CreateIface(NewIface(acc.next, dev, w), [Audit(InterfaceCreated, acc.next)])).(next := acc.next + 1)
    else
      var want := ex.value.(cols := Refreshed(ex.value.cols, w));
      if want != ex.value then Add(acc, UpdateIface(want, [Audit(InterfaceUpdated, want.id)])) else acc
  }

  function PlanWanted(next: Id, rows: seq<Iface>, dev: Id, ws: seq<Wanted>, n: nat): Acc
    requires n <= |ws|
  {
    if n == 0 then Acc(next, []) else IfaceStep(PlanWanted(next, rows, dev, ws, n - 1), rows, dev, ws[n - 1])
  }

  predicate Names(ws: seq<Wanted>, name: string) {
    exists w :: w in ws && w.name == name
  }

  /** The wanted interface of that name among the first `n`. */
  function WantedNamed(ws: seq<Wanted>, n: nat, name: string): (f: Option<Wanted>)
    requires n <= |ws|
    ensures f.Some? ==> f.value in ws[..n] && f.value.name == name
    ensures f.None? ==> forall w :: w in ws[..n] ==> w.name != name
  {
    if n == 0 then None
    else
      assert ws[..n] == ws[..n - 1] + [ws[n - 1]];
      if ws[n - 1].name == name then Some(ws[n - 1]) else WantedNamed(ws, n - 1, name)
  }

  /** The interface is gone from the report (a management interface only when there is a BMC report). */
  predicate Lost(i: Iface, ws: seq<Wanted>, noBmc: bool) {
    !Names(ws, i.name) && i.cols.state == Reported && !(noBmc && i.cols.kind == "management")
  }

  function LostStep(acc: Acc, i: Iface, ws: seq<Wanted>, noBmc: bool): Acc {
    if Lost(i, ws, noBmc) then
      Add(acc, UpdateIface(i.(cols := i.cols.(state := NotReported)), [Audit(InterfaceNotReported, i.id)]))
    else acc
  }

  function PlanLost(acc: Acc, rows: seq<Iface>, ws: seq<Wanted>, noBmc: bool, n: nat): Acc
    requires n <= |rows|
  {
    if n == 0 then acc else LostStep(PlanLost(acc, rows, ws, noBmc, n - 1), rows[n - 1], ws, noBmc)
  }

  function PlanIfaces(next: Id, st: State, r: Report, dev: Id): Acc {
    var ws := WantedIfaces(r);
    PlanLost(PlanWanted(next, st.ifaces, dev, ws, |ws|), st.ifaces, ws, r.bmc.None?, |st.ifaces|)
  }

  // ---- addresses

  /** One reported address and the interface it sits on. */
  datatype Claim = Claim(addr: RAddr, iface: Wanted)

  function ClaimsOf(w: Wanted, n: nat): seq<Claim>
    requires n <= |w.addrs|
  {
    if n == 0 then [] else ClaimsOf(w, n - 1) + [Claim(w.addrs[n - 1], w)]
  }

  function Claims(ws: seq<Wanted>, n: nat): seq<Claim>
    requires n <= |ws|
  {
    if n == 0 then [] else Claims(ws, n - 1) + ClaimsOf(ws[n - 1], |ws[n - 1].addrs|)
  }

  predicate Recorded(c: Claim) {
    ValidAddr(c.addr.addr) && Placement.Recordable(c.addr.addr) && !c.addr.temporary && !c.addr.deprecated
  }

  function Key(c: Claim): Text {
    Spelled(c.addr.addr)
  }

  /** Planning so far, with the subnets known or planned and the addresses handled. */
  datatype AddrAcc = AddrAcc(next: Id, ops: seq<Op>, cands: seq<Placement.Candidate>, names: set<string>,
                             seen: set<Text>)

  function CidrText(c: Cidr): string {
    (if c.family == V4 then "4:" else "6:") + Decimal(c.addr) + "/" + Decimal(c.prefix)
  }

  function SubnetFor(id: Id, c: RAddr, names: set<string>): Subnet
    requires ValidAddr(c.addr) && Placement.Recordable(c.addr)
  {
    Placement.RecordableIsCanonical(c.addr);
    var cidr := Placement.AutoCidr(c.addr, c.prefix);
    var name := CidrText(cidr);
    Subnet(id, if Lower(name) in names then name + " (auto)" else name, Some(cidr),
           map["status" := "active", "created_by" := "host-sync", "origin" := "host_sync"])
  }

  /** placeSubnet: the most specific subnet, or a planned one. */
  function Place(acc: AddrAcc, c: RAddr): (Id, AddrAcc)
    requires ValidAddr(c.addr) && Placement.Recordable(c.addr)
  {
    var m := Placement.MostSpecific(acc.cands, c.addr);
    if m.Some? then (m.value.id, acc)
    else
      var s := SubnetFor(acc.next, c, acc.names);
      (s.id, AddrAcc(acc.next + 1, acc.ops + [CreateSubnet(s, [Audit(SubnetCreated, s.id)])],
                     acc.cands + [Placement.Candidate(s.id, s.cidr)], acc.names + {Lower(s.name)}, acc.seen))
  }

  function FindAddr(rows: seq<AddrRow>, n: nat, text: Text): (f: Option<AddrRow>)
    requires n <= |rows|
    ensures f.Some? ==> f.value in rows[..n] && f.value.text == text
    ensures f.None? ==> forall a :: a in rows[..n] ==> a.text != text
  {
    if n == 0 then None
    else
      assert rows[..n] == rows[..n - 1] + [rows[n - 1]];
      if rows[n - 1].text == text then Some(rows[n - 1]) else FindAddr(rows, n - 1, text)
  }

  predicate Primary(c: Claim, r: Report) {
    !c.iface.bmc && (Some(c.addr.addr) == r.primary4 || Some(c.addr.addr) == r.primary6)
  }

  function HostnameFor(c: Claim, r: Report): string {
    if c.iface.bmc then "" else DNSHostname(r.hostname)
  }

  predicate Moves(was: AddrCols, dev: Id) {
    was.device != 0 && was.device != dev
  }

  /** The move fields after one more move. */
  function Moved(was: AddrCols, p: Params): AddrCols {
    var restart := was.windowStart.None? || p.now - was.windowStart.value > p.conflictWindow;
    var count := if restart then 1 else was.moveCount + 1;
    was.(previous := was.device, movedAt := Some(p.now), windowStart := if restart then Some(p.now)
      else was.windowStart,
         moveCount := count, conflict := was.conflict || count >= p.conflictMoves)
  }

  /** The conflict ends once the last move is older than the window. */
  function Settled(was: AddrCols, p: Params): AddrCols {
    if was.conflict && was.movedAt.Some? && p.now - was.movedAt.value > p.conflictWindow
    then was.(conflict := false, moveCount := 0, windowStart := None) else was
  }

  function Bound(was: AddrCols, dev: Id, c: Claim, r: Report): AddrCols {
    was.(device := dev, iface := c.iface.name, mac := c.iface.mac, hostname := HostnameFor(c, r),
         primary := Primary(c, r), state := Reported)
  }

  /** The columns a reported address wants, apart from last seen. */
  function Resolved(was: AddrCols, dev: Id, c: Claim, r: Report, p: Params): AddrCols {
    Bound(if Moves(was, dev) then Moved(was, p) else Settled(was, p), dev, c, r)
  }

  predicate AddrChanged(a: AddrCols, b: AddrCols) {
    || a.device != b.device || a.iface != b.iface || a.mac != b.mac || a.hostname != b.hostname || a.state != b.state
    || a.previous != b.previous || a.primary != b.primary || a.conflict != b.conflict || a.moveCount != b.moveCount
  }

  function AddrAudit(id: Id, was: AddrCols, want: AddrCols, dev: Id): seq<Audit> {
    if Moves(was, dev) then
      [Audit(AddressMoved, id)] + (if want.conflict && !was.conflict then [Audit(AddressConflict, id)] else [])
    else [Audit(AddressUpdated, id)] + (if was.conflict
      && !want.conflict then [Audit(AddressConflictCleared, id)] else [])
  }

  function NewAddr(id: Id, subnet: Id, dev: Id, c: Claim, r: Report): AddrRow {
    AddrRow(id, Key(c), subnet,
            AddrCols(dev, c.iface.name, c.iface.mac, HostnameFor(c, r), Primary(c, r), r.collected, Reported, 0, None,
              0, None, false),
            Provenance("", 0, None), map["status" := "active", "address_type" := "host", "created_by" := "host-sync"])
  }

  function CreateStep(acc: AddrAcc, dev: Id, c: Claim, r: Report): AddrAcc
    requires Recorded(c)
  {
    var id := acc.next;
    var (subnet, acc1) := Place(acc.(next := id + 1), c.addr);
    acc1.(ops := acc1.ops + [CreateAddr(NewAddr(id, subnet, dev, c, r), [Audit(AddressCreated, id)])])
  }

  function UpdateStep(acc: AddrAcc, row: AddrRow, dev: Id, c: Claim, r: Report, p: Params): AddrAcc {
    var want := Resolved(row.cols, dev, c, r, p);
    if AddrChanged(row.cols, want) then
      acc.(ops := acc.ops + [UpdateAddr(row.(cols := want.(lastSeen := r.collected)),
        AddrAudit(row.id, row.cols, want, dev))])
    else acc
  }

  /** One reported address: skipped, created, moved, claimed or refreshed. */
  function AddrStep(acc: AddrAcc, rows: seq<AddrRow>, dev: Id, c: Claim, r: Report, p: Params): AddrAcc {
    if !Recorded(c) || Key(c) in acc.seen then acc
    else
      var acc1 := acc.(seen := acc.seen + {Key(c)});
      var row := FindAddr(rows, |rows|, Key(c));
      if row.None? then CreateStep(acc1, dev, c, r) else UpdateStep(acc1, row.value, dev, c, r, p)
  }

  function PlanClaims(acc: AddrAcc, rows: seq<AddrRow>, dev: Id, cs: seq<Claim>, r: Report, p: Params, n: nat): AddrAcc
    requires n <= |cs|
  {
    if n == 0 then acc else AddrStep(PlanClaims(acc, rows, dev, cs, r, p, n - 1), rows, dev, cs[n - 1], r, p)
  }

  /** The row is ours and reported, and its address is gone from the report. */
  predicate Gone(a: AddrRow, dev: Id, seen: set<Text>, noBmc: bool) {
    a.text !in seen && a.cols.device == dev && a.cols.state == Reported && !(noBmc && IsBMCName(a.cols.iface))
  }

  function Released(a: AddrRow, dev: Id): AddrRow {
    a.(cols := a.cols.(device := 0, iface := "", primary := false, previous := dev, state := NotReported))
  }

  function ReleaseStep(acc: Acc, a: AddrRow, dev: Id, seen: set<Text>, noBmc: bool): Acc {
    if Gone(a, dev, seen, noBmc) then Add(acc, UpdateAddr(Released(a, dev), [Audit(AddressReleased, a.id)])) else acc
  }

  function PlanReleases(acc: Acc, rows: seq<AddrRow>, dev: Id, seen: set<Text>, noBmc: bool, n: nat): Acc
    requires n <= |rows|
  {
    if n == 0 then acc else ReleaseStep(PlanReleases(acc, rows, dev, seen, noBmc, n - 1), rows[n - 1], dev, seen, noBmc)
  }

  function Cands(subnets: seq<Subnet>): seq<Placement.Candidate> {
    seq(|subnets|, i requires 0 <= i < |subnets| => Placement.Candidate(subnets[i].id, subnets[i].cidr))
  }

  function SubnetNames(subnets: seq<Subnet>): set<string> {
    set s | s in subnets :: Lower(s.name)
  }

  function StartAddrs(next: Id, st: State): AddrAcc {
    AddrAcc(next, [], Cands(st.subnets), SubnetNames(st.subnets), {})
  }

  function PlanAddrs(next: Id, st: State, r: Report, p: Params, dev: Id): Acc {
    var cs := Claims(WantedIfaces(r), |WantedIfaces(r)|);
    var a := PlanClaims(StartAddrs(next, st), st.addrs, dev, cs, r, p, |cs|);
    PlanReleases(Acc(a.next, a.ops), st.addrs, dev, a.seen, r.bmc.None?, |st.addrs|)
  }

  // ---- packages

  function FindPackage(ps: seq<Package>, n: nat, name: string): (f: Option<Package>)
    requires n <= |ps|
    ensures f.Some? ==> f.value in ps[..n] && f.value.name == name
    ensures f.None? ==> forall p :: p in ps[..n] ==> p.name != name
  {
    if n == 0 then None
    else
      assert ps[..n] == ps[..n - 1] + [ps[n - 1]];
      if ps[n - 1].name == name then Some(ps[n - 1]) else FindPackage(ps, n - 1, name)
  }

  /** The rows wanted so far, and whether one of them is new or changed. */
  datatype PackAcc = PackAcc(next: Id, rows: seq<Package>, dirty: bool)

  function PackStep(acc: PackAcc, cur: seq<Package>, q: Pending, manager: string): PackAcc {
    var ex := FindPackage(cur, |cur|, q.name);
    var id := if ex.Some? then ex.value.id else acc.next;
    var np := Package(id, q.name, q.installed, q.available, true, q.security, manager);
    PackAcc(if ex.Some? then acc.next else acc.next + 1, acc.rows + [np], acc.dirty || ex != Some(np))
  }

  function PlanPending(next: Id, cur: seq<Package>, r: Report, n: nat): PackAcc
    requires n <= |r.pending|
  {
    if n == 0 then PackAcc(next, [], false) else PackStep(PlanPending(next, cur, r, n - 1), cur, r.pending[n - 1],
      r.updates.manager)
  }

  predicate Dropped(cur: seq<Package>, r: Report) {
    exists p :: p in cur && forall q :: q in r.pending ==> q.name != p.name
  }

  function PlanPackages(next: Id, st: State, r: Report, dev: Id): Acc {
    if r.updates.status != "up_to_date" && r.updates.status != "updates_available" then Acc(next, [])
    else
      var a := PlanPending(next, st.packages, r, |r.pending|);
      if !a.dirty && !Dropped(st.packages, r) then Acc(a.next, [])
      else Acc(a.next, [ReplacePackages(dev, a.rows, [Audit(PackagesUpdated, dev)])])
  }

  // ---- hardware

  function PlanHardware(st: State, r: Report, p: Params, dev: Id): seq<Op> {
    if r.hardware.None? then []
    else
      var inn := r.hardware.value;
      var h := Hardware(dev, inn.profile, inn.digest, if r.collected.Some? then r.collected.value else p.now);
      if st.hardware.None? then [ReplaceHardware(h, [Audit(HardwareReported, dev)])]
      else if st.hardware.value.digest != inn.digest then [ReplaceHardware(h, [Audit(HardwareUpdated, dev)])]
      else if st.hardware.value.profile.free == inn.profile.free then []
      else [ReplaceHardware(h, [])]
  }

  // ---- guests

  /** The other devices carrying one of the MACs. */
  function Owners(os: seq<MacOwner>, dev: Id, macs: seq<string>): set<Id> {
    set o | o in os && o.device != dev && o.mac in macs :: o.device
  }

  function FindOwner(os: seq<MacOwner>, n: nat, dev: Id, macs: seq<string>): (f: Option<MacOwner>)
    requires n <= |os|
    ensures f.Some? ==> f.value in os[..n] && f.value.device != dev && f.value.mac in macs
    ensures f.None? ==> forall o :: o in os[..n] ==> o.device == dev || o.mac !in macs
  {
    if n == 0 then None
    else
      assert os[..n] == os[..n - 1] + [os[n - 1]];
      if os[n - 1].device != dev && os[n - 1].mac in macs then Some(os[n - 1]) else FindOwner(os, n - 1, dev, macs)
  }

  /** The only other device carrying one of the MACs. */
  function OneOwner(os: seq<MacOwner>, dev: Id, macs: seq<string>): Option<MacOwner> {
    if |Owners(os, dev, macs)| == 1 then FindOwner(os, |os|, dev, macs) else None
  }

  function FindGuest(gs: seq<Guest>, n: nat, ref: string): (f: Option<Guest>)
    requires n <= |gs|
    ensures f.Some? ==> f.value in gs[..n] && f.value.ref == ref
    ensures f.None? ==> forall g :: g in gs[..n] ==> g.ref != ref
  {
    if n == 0 then None
    else
      assert gs[..n] == gs[..n - 1] + [gs[n - 1]];
      if gs[n - 1].ref == ref then Some(gs[n - 1]) else FindGuest(gs, n - 1, ref)
  }

  datatype GuestAcc = GuestAcc(next: Id, ops: seq<Op>, want: seq<Guest>, linked: set<Id>)

  function GuestRow(id: Id, dev: Id, g: RGuest, device: Id, at: Time): Guest {
    Guest(id, dev, g.ref, g.name, g.kind, g.platform, g.macs, device, at)
  }

  function GuestStep(acc: GuestAcc, st: State, dev: Id, g: RGuest, p: Params): GuestAcc {
    var o := OneOwner(st.macOwners, dev, g.macs);
    var ex := FindGuest(st.guests, |st.guests|, g.ref);
    var row := GuestRow(if ex.Some? then ex.value.id else acc.next, dev, g, if o.Some? then o.value.device else 0,
                        if ex.Some? then ex.value.reportedAt else p.now);
    GuestAcc(if ex.Some? then acc.next else acc.next + 1,
             if o.Some? && o.value.device !in acc.linked && o.value.hypervisor != dev
             then acc.ops + [SetHypervisor(o.value.device, dev, [Audit(HypervisorLinked, o.value.device)])]
               else acc.ops,
             acc.want + [row],
             if o.Some? then acc.linked + {o.value.device} else acc.linked)
  }

  function PlanGuestRows(next: Id, st: State, dev: Id, r: Report, p: Params, n: nat): GuestAcc
    requires n <= |r.guests|
  {
    if n == 0 then GuestAcc(next, [], [], {}) else GuestStep(PlanGuestRows(next, st, dev, r, p, n - 1), st, dev,
      r.guests[n - 1], p)
  }

  function UnlinkStep(acc: Acc, d: Device, linked: set<Id>): Acc {
    if d.id in linked then acc else Add(acc, SetHypervisor(d.id, 0, [Audit(HypervisorUnlinked, d.id)]))
  }

  function PlanUnlinks(acc: Acc, ds: seq<Device>, linked: set<Id>, n: nat): Acc
    requires n <= |ds|
  {
    if n == 0 then acc else UnlinkStep(PlanUnlinks(acc, ds, linked, n - 1), ds[n - 1], linked)
  }

  predicate SameGuest(a: Guest, b: Guest) {
    a.name == b.name && a.kind == b.kind && a.platform == b.platform && a.device == b.device && a.macs == b.macs
  }

  predicate GuestsEqual(a: seq<Guest>, b: seq<Guest>) {
    |a| == |b| && forall g :: g in b ==> (var o := FindGuest(a, |a|, g.ref); o.Some? && SameGuest(o.value, g))
  }

  function Stamped(gs: seq<Guest>, now: Time): seq<Guest> {
    seq(|gs|, i requires 0 <= i < |gs| => gs[i].(reportedAt := now))
  }

  function PlanGuests(next: Id, st: State, r: Report, p: Params, dev: Id): Acc {
    if r.guests == [] && st.guests == [] && st.guestDevices == [] then Acc(next, [])
    else
      var a := PlanGuestRows(next, st, dev, r, p, |r.guests|);
      var u := PlanUnlinks(Acc(a.next, a.ops), st.guestDevices, a.linked, |st.guestDevices|);
      if GuestsEqual(st.guests, a.want) then u
      else Add(u, ReplaceGuests(dev, Stamped(a.want, p.now), [Audit(DeviceUpdated, dev)]))
  }

  // ---- this device as a guest

  predicate HasMac(g: Guest, macs: set<string>) {
    exists m :: m in g.macs && m in macs
  }

  function Macs(ws: seq<Wanted>): set<string> {
    set w | w in ws && w.mac != "" :: w.mac
  }

  function Hosts(rows: seq<Guest>, dev: Id, macs: set<string>): set<Id> {
    set g | g in rows && g.host != dev && HasMac(g, macs) :: g.host
  }

  function SelfStep(ops: seq<Op>, g: Guest, dev: Id, macs: set<string>): seq<Op> {
    if g.host != dev && HasMac(g, macs) && g.device != dev
      then ops + [SetGuestDevice(g.id, dev, [Audit(DeviceUpdated, g.host)])]
    else ops
  }

  function PlanSelfRows(ops: seq<Op>, rows: seq<Guest>, dev: Id, macs: set<string>, n: nat): seq<Op>
    requires n <= |rows|
  {
    if n == 0 then ops else SelfStep(PlanSelfRows(ops, rows, dev, macs, n - 1), rows[n - 1], dev, macs)
  }

  function TheOne(s: set<Id>): (x: Id)
    requires |s| == 1
    ensures x in s && s == {x}
  {
    assert s != {};
    var x :| x in s;
    assert |s - {x}| == 0;
    assert s == {x} + (s - {x});
    x
  }

  function PlanSelf(st: State, r: Report, dev: Device): seq<Op> {
    var macs := Macs(WantedIfaces(r));
    var hosts := Hosts(st.guestRows, dev.id, macs);
    if |hosts| != 1 then []
    else
      var host := TheOne(hosts);
      PlanSelfRows(if dev.hypervisor != host then [SetHypervisor(dev.id, host, [Audit(HypervisorLinked, dev.id)])]
        else [],
                   st.guestRows, dev.id, macs, |st.guestRows|)
  }

  // ---- the whole plan

  datatype Plan = Plan(device: Id, next: Id, ops: seq<Op>)

  function Build(st: State, r: Report, p: Params, next: Id): Plan {
    var (dev, a0) := PlanDevice(st, r, next);
    var a1 := PlanIfaces(a0.next, st, r, dev.id);
    var a2 := PlanAddrs(a1.next, st, r, p, dev.id);
    var a3 := PlanPackages(a2.next, st, r, dev.id);
    var hw := PlanHardware(st, r, p, dev.id);
    var a5 := PlanGuests(a3.next, st, r, p, dev.id);
    var own := PlanSelf(st, r, dev);
    Plan(dev.id, a5.next, a0.ops + a1.ops + a2.ops + a3.ops + hw + a5.ops + own)
  }
}
