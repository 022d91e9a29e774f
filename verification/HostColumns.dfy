/** What an applied report leaves in a device's columns, each from the report and the old row. */
module HostColumns {
  import opened Wrappers
  import opened Ipnet
  import opened HostStore
  import opened HostReport
  import opened HostPlan
  import opened HostLoad
  import opened HostSelf
  import opened HostParts
  import opened HostSync
  import Allocator

  // ---- what a column takes

  /** A text the report leaves empty keeps its old value. */
  predicate Takes(was: string, reported: string, now: string) {
    if reported == "" then now == was else now == reported
  }

  /** An address the report does not have keeps its old value. */
  predicate TakesAddr(was: Option<Text>, reported: Option<Addr>, now: Option<Text>) {
    match reported
    case Some(a) => now == Some(Allocator.Text.Text(Some(a), 0))
    case None => now == was
  }

  predicate TakesFlag(was: bool, reported: Tri, now: bool) {
    match reported
    case TriTrue => now
    case TriFalse => !now
    case TriUnknown => now == was
  }

  /** The first eight characters of the host id, or all of it. */
  predicate ShortId(host: string, short: string) {
    short <= host && |short| == if |host| > 8 then 8 else |host|
  }

  /** The hostname, or a name made of the host id; with the host id in parentheses if another device has that one. */
  ghost predicate NamedAs(devices: map<Id, Device>, self: Id, r: Report, name: string) {
    exists short ::
      && ShortId(r.host, short)
      && var base := if r.hostname != "" then r.hostname else "host-" + short;
         var taken := exists i :: i in devices && i != self && Lower(devices[i].cols.name) == Lower(base);
         name == if taken then base + " (" + short + ")" else base
  }

  /** A machine's kind by its role: a physical one is a server only where nothing better is known. */
  predicate KindOf(was: Option<string>, role: Role, now: string) {
    match role
    case RoleVM => now == "vm"
    case RoleContainer => now == "container"
    case RolePhysical => now == if was.None? || was.value in {"vm", "container"} then "server" else was.value
    case RoleUnknown => now == if was.None? then "server" else was.value
  }

  predicate VirtOf(was: string, r: Report, now: string) {
    match r.role
    case RoleVM => now == r.virtKind
    case RoleContainer => now == r.virtKind
    case RolePhysical => now == ""
    case RoleUnknown => now == was
  }

  /** The columns of the device before the report: those of the matched one, or a new device's blanks. */
  predicate ColsBefore(found: Option<Device>, c: DeviceCols) {
    match found
    case Some(d) => c == d.cols
    case None =>
      && c.virtKind == "" && c.osType == "" && c.osVersion == "" && c.manufacturer == "" && c.model == ""
      && c.serial == "" && c.primaryIp == None && c.primaryIpv6 == None && c.managementIp == None
      && !c.reboot && !c.unattended && c.lastSeen == None
  }

  /** Every column but the name, from the report and the columns before. */
  predicate ColumnsFrom(was: DeviceCols, created: bool, r: Report, c: DeviceCols) {
    && KindOf(if created then None else Some(was.kind), r.role, c.kind) && VirtOf(was.virtKind, r, c.virtKind)
    && Takes(was.osType, r.osFamily, c.osType)
    && Takes(was.osVersion, Trim(r.osName + " " + r.osVersion), c.osVersion)
    && Takes(was.manufacturer, r.manufacturer, c.manufacturer) && Takes(was.model, r.model, c.model)
    && Takes(was.serial, r.serial, c.serial)
    && TakesAddr(was.primaryIp, r.primary4, c.primaryIp) && TakesAddr(was.primaryIpv6, r.primary6, c.primaryIpv6)
    && TakesAddr(was.managementIp, if r.bmc.Some? then r.bmc.value.address else None, c.managementIp)
    && TakesFlag(was.reboot, r.updates.reboot, c.reboot)
    && TakesFlag(was.unattended, r.updates.automatic, c.unattended)
    && c.updateStatus == r.updates.status
    && c.lastSeen == (if r.lastSeen.Some? then r.lastSeen else was.lastSeen)
    && c.source == "host_report" && c.inventory == r.host && c.state == Reported
    && c.lastReport == r.collected && c.digest == r.digest
  }

  ghost predicate Described(devices: map<Id, Device>, found: Option<Device>, self: Id, r: Report, c: DeviceCols) {
    NamedAs(devices, self, r, c.name) && exists was :: ColsBefore(found, was) && ColumnsFrom(was, found.None?, r, c)
  }

  lemma WantColumns(was: DeviceCols, name: string, r: Report, created: bool)
    ensures ColumnsFrom(was, created, r, WantCols(was, name, r, created))
    ensures WantCols(was, name, r, created).name == name
  {}

  // ---- the plan and the applied store

  lemma NameIs(devices: map<Id, Device>, self: Id, r: Report)
    ensures NamedAs(devices, self, r, NameFor(devices, self, r))
  {
    assert ShortId(r.host, Short(r.host));
  }

  /** The device a plan wants. */
  lemma PlannedColumns(s: Store, st: State, r: Report, next: Id)
    requires KeysAreIds(s) && LoadsCandidates(s, r, st)
    ensures var dev := PlanDevice(st, r, next).0; Described(s.devices, Match(st, r), dev.id, r, dev.cols)
  {
    var m, dev := Match(st, r), PlanDevice(st, r, next).0;
    var was := if m.Some? then m.value.cols else BLANK_COLS;
    NameLoaded(s, st, r, dev.id);
    NameIs(s.devices, dev.id, r);
    WantColumns(was, DesiredName(st.byName, r, dev.id), r, m.None?);
    assert ColsBefore(m, was);
  }

  /** The device section is the only one that writes columns: the applied store has those planned. */
  lemma ColumnsApplied(s: Store, st: State, r: Report, p: Params, next: Id)
    requires Applies(s, st, r, p, next)
    ensures var dev, t := PlanDevice(st, r, next).0, Applied(s, st, r, p, next);
            && dev.id in t.devices && t.devices[dev.id].cols == dev.cols && t.devices[dev.id].admin == dev.admin
            && forall i :: i in s.devices && i != dev.id ==> i in t.devices && t.devices[i].cols == s.devices[i].cols
  {
    var (dev, a0) := PlanDevice(st, r, next);
    var a3 := PlanPackages(PlanAddrs(PlanIfaces(a0.next, st, r, dev.id).next, st, r, p, dev.id).next, st, r, dev.id);
    AppliedTables(s, st, r, p, next);
    NextOrder(st, r, p, next);
    DeviceTable(s, st, r, next);
    AfterSelf(s, st, r, p, next, a3.next);
  }

  /** After an applied report the device is described as reported, column by column, and no other device changed. */
  lemma DeviceColumns(s: Store, st: State, r: Report, p: Params, next: Id)
    requires Applies(s, st, r, p, next)
    ensures var self, t := PlanDevice(st, r, next).0.id, Applied(s, st, r, p, next);
            && self in t.devices && Described(s.devices, Match(st, r), self, r, t.devices[self].cols)
            && (Match(st, r).None? ==>
                  t.devices[self].admin == map["status" := "active", "created_by" := "host-sync",
                    "device_height_u" := "1"])
            && forall i :: i in s.devices && i != self ==> i in t.devices && t.devices[i].cols == s.devices[i].cols
  {
    ColumnsApplied(s, st, r, p, next);
    PlannedColumns(s, st, r, next);
  }
}
