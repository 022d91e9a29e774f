/**
 The in-memory store as an object: tables updated in place inside one transaction, restored as a
 whole when anything fails (internal/memstore/hostsync.go, internal/hostsync/apply.go).
 */
module HostMem {
  import opened Wrappers
  import opened HostStore
  import opened HostReport
  import opened HostPlan
  import opened HostLoad
  import opened HostParts
  import HostPlanner
  import opened HostSync
  import opened HostSyncResults
  import opened HostSections
  import opened HostIds
  import opened HostGone

  /** The rows of a table that satisfy a predicate, in whatever order the map yields them. */
  method Collect<R(==)>(m: map<Id, R>, id: R -> Id, pred: R -> bool) returns (rows: seq<R>)
    requires forall k :: k in m ==> id(m[k]) == k
    ensures forall i, j :: 0 <= i < j < |rows| ==> id(rows[i]) != id(rows[j])
    ensures forall x :: x in rows <==> (id(x) in m && m[id(x)] == x && pred(x))
  {
    rows := [];
    var keys, done: set<Id> := m.Keys, {};
    while keys != {}
      invariant keys !! done && keys + done == m.Keys
      invariant forall i, j :: 0 <= i < j < |rows| ==> id(rows[i]) != id(rows[j])
      invariant forall x :: x in rows <==> (id(x) in done && m[id(x)] == x && pred(x))
      decreases keys
    {
      var k :| k in keys;
      if pred(m[k]) { rows := rows + [m[k]]; }
      keys, done := keys - {k}, done + {k};
    }
  }

  /** One of these interfaces makes `o.device` an owner of `o.mac`. */
  ghost predicate OwnedIn(s: Store, ids: set<Id>, o: MacOwner) {
    exists i :: i in ids && Owns(s, i, o)
  }

  ghost predicate Owns(s: Store, i: Id, o: MacOwner) {
    Carries(s, i, o.mac) && s.ifaces[i].device == o.device && o.device in s.devices
      && s.devices[o.device].hypervisor == o.hypervisor
  }

  lemma OwnerStep(s: Store, os0: seq<MacOwner>, os: seq<MacOwner>, done: set<Id>, k: Id, macs: set<string>, o: MacOwner)
    requires IfacesOwned(s) && k in s.ifaces && (o in os0 <==> (o.mac in macs && OwnedIn(s, done, o)))
    requires var i := s.ifaces[k];
             os == if i.cols.mac != "" && Lower(i.cols.mac) in macs
                   then os0 + [MacOwner(Lower(i.cols.mac), i.device, s.devices[i.device].hypervisor)] else os0
    ensures o in os <==> (o.mac in macs && OwnedIn(s, done + {k}, o))
  {
    if i :| i in done && Owns(s, i, o) {
      assert i in done + {k};
    } else {
      assert OwnedIn(s, done + {k}, o) <==> Owns(s, k, o);
    }
  }

  lemma SameCandidates(s: Store, r: Report, a: State, b: State)
    requires a.byHost == b.byHost && a.bySerial == b.bySerial && a.byName == b.byName && LoadsCandidates(s, r, a)
    ensures LoadsCandidates(s, r, b) && Match(b, r) == Match(a, r)
  {}

  lemma ExecNext(s: Store, ops: seq<Op>, k: nat)
    requires k < |ops|
    ensures var w := Perform(s, ops[k]); Exec(s, ops[k..]) == if w.Ok? then Exec(w.value, ops[k + 1..]) else w
  {
    assert ops[k..][0] == ops[k] && ops[k..][1..] == ops[k + 1..];
  }

  ghost predicate Unreported(a: AddrRow, r: Report) {
    forall c :: c in AllClaims(r) && Recorded(c) ==> Key(c) != a.text
  }

  /** Addresses of other devices that were not reported are as before. */
  ghost predicate AddrsFramed(s: Store, t: Store, dev: Id, r: Report) {
    forall i :: i in s.addrs && s.addrs[i].cols.device != dev && Unreported(s.addrs[i], r) ==>
      i in t.addrs && t.addrs[i] == s.addrs[i]
  }

  /** Other devices and their reported columns are as before, and no device of another host was taken. */
  ghost predicate DevicesFramed(s: Store, t: Store, dev: Id, r: Report) {
    && (forall i :: i in s.devices && i != dev ==> i in t.devices && t.devices[i].cols == s.devices[i].cols)
    && (forall i :: i in t.devices && i != dev ==> i in s.devices)
    && (dev in s.devices ==> !LinkedElsewhere(s.devices[dev], r.host))
  }

  lemma AppliedAddrsFramed(s: Store, st: State, r: Report, p: Params, next: Id)
    requires Applies(s, st, r, p, next)
    ensures AddrsFramed(s, Applied(s, st, r, p, next), Target(st, r, next), r)
  {
    var t := Applied(s, st, r, p, next);
    forall i | i in s.addrs && s.addrs[i].cols.device != Target(st, r, next) && Unreported(s.addrs[i], r)
      ensures i in t.addrs && t.addrs[i] == s.addrs[i]
    {
      OthersKept(s, st, r, p, next, i);
    }
  }

  lemma TargetIsOurs(s: Store, st: State, r: Report, next: Id)
    requires IfacesOwned(s) && Unused(s, next) && Loads(s, r, st) && Target(st, r, next) in s.devices
    ensures !LinkedElsewhere(s.devices[Target(st, r, next)], r.host)
  {
    if Match(st, r).Some? { MatchIsStored(s, r, st); }
  }

  lemma AppliedDevicesFramed(s: Store, st: State, r: Report, p: Params, next: Id)
    requires Applies(s, st, r, p, next)
    ensures DevicesFramed(s, Applied(s, st, r, p, next), Target(st, r, next), r)
  {
    OtherColsKept(s, st, r, p, next);
    AdminUntouched(s, st, r, p, next);
    if Target(st, r, next) in s.devices { TargetIsOurs(s, st, r, next); }
  }

  /** Well-formed, with no row or reference at or above the next id. */
  ghost predicate Sane(s: Store, next: Id) {
    WellFormed(s) && Unused(s, next)
  }

  /** The store went from `s` to `t` by the plan's writes: in sync, well-formed, everything else kept. */
  ghost predicate Synced(s: Store, t: Store, r: Report, p: Params, plan: Plan) {
    && Exec(s, plan.ops) == Ok(t) && InSync(t, plan.device, r, p) && Sane(t, plan.next)
    && AdminKept(s, t) && AddrsFramed(s, t, plan.device, r) && DevicesFramed(s, t, plan.device, r)
  }

  ghost predicate Ready(s: Store, next: Id, r: Report, p: Params) {
    Sane(s, next) && Normalized(r) && p.conflictWindow >= 0
  }

  lemma PlanSyncs(s: Store, t: Store, st: State, r: Report, p: Params, next: Id)
    requires Ready(s, next, r, p) && Loads(s, r, st) && Exec(s, Build(st, r, p, next).ops) == Ok(t)
    ensures Synced(s, t, r, p, Build(st, r, p, next))
  {
    AppliedInSync(s, st, r, p, next);
    AppliedWellFormed(s, st, r, p, next);
    AdminUntouched(s, st, r, p, next);
    AppliedAddrsFramed(s, st, r, p, next);
    AppliedDevicesFramed(s, st, r, p, next);
    AppliedUnused(s, st, r, p, next);
    BuildIsAll(st, r, p, next);
  }

  /** The plan is the planner's, for some state loaded from the store. */
  ghost predicate Planned(s: Store, next: Id, r: Report, p: Params, plan: Plan) {
    IfacesOwned(s) && exists st :: Loads(s, r, st) && plan == Build(st, r, p, next)
  }

  /** The planner's plan; whatever store its writes lead to is synced. */
  ghost predicate Syncs(s: Store, next: Id, r: Report, p: Params, plan: Plan) {
    Planned(s, next, r, p, plan) && Sane(s, plan.next)
      && (Exec(s, plan.ops).Ok? ==> Synced(s, Exec(s, plan.ops).value, r, p, plan))
  }

  /** How running the writes from `s` ended: all done, the store's own fault, or the first write refused. */
  ghost predicate Ends(s: Store, t: Store, ops: seq<Op>, fault: Option<nat>, e: Option<TxError>) {
    var faulty := fault.Some? && fault.value < |ops|;
    match e
    case None => !faulty && Exec(s, ops) == Ok(t)
    case Some(x) => (faulty && x == ErrFault) || Exec(s, ops) == Err(x)
  }

  /** The first `k` writes led from `s` to `t` without a fault, and the log only grew. */
  ghost predicate Ran(s: Store, t: Store, ops: seq<Op>, fault: Option<nat>, k: nat) {
    && k <= |ops| && Exec(s, ops) == Exec(t, ops[k..]) && (fault.None? || fault.value >= k)
    && |s.audit| <= |t.audit| && t.audit[..|s.audit|] == s.audit
  }

  lemma RanNothing(s: Store, ops: seq<Op>, fault: Option<nat>)
    ensures Ran(s, s, ops, fault, 0)
  {
    assert ops[0..] == ops;
  }

  lemma RanOne(s: Store, t: Store, u: Store, ops: seq<Op>, fault: Option<nat>, k: nat, e: Option<TxError>)
    requires Ran(s, t, ops, fault, k) && k < |ops| && fault != Some(k)
    requires Exec(t, ops[k..]) == if e.None? then Exec(u, ops[k + 1..]) else Err(e.value)
    requires |t.audit| <= |u.audit| && u.audit[..|t.audit|] == t.audit
    ensures |s.audit| <= |u.audit| && u.audit[..|s.audit|] == s.audit
    ensures if e.None? then Ran(s, u, ops, fault, k + 1) else Ends(s, u, ops, fault, e)
  {
    assert u.audit[..|s.audit|] == u.audit[..|t.audit|][..|s.audit|];
  }

  lemma RanAll(s: Store, t: Store, ops: seq<Op>, fault: Option<nat>)
    requires Ran(s, t, ops, fault, |ops|)
    ensures Ends(s, t, ops, fault, None)
  {
    assert ops[|ops|..] == [];
  }

  /** With the store restored after an error. */
  ghost predicate Commits(s: Store, t: Store, ops: seq<Op>, fault: Option<nat>, e: Option<TxError>) {
    Ends(s, t, ops, fault, e) && (e.Some? ==> t == s)
  }

  /**
   One transaction: the plan's writes all happened and the store is synced, or nothing changed; a
   disabled tenant is refused.
   */
  ghost predicate Outcome(enabled: bool, s: Store, t: Store, next: Id, r: Report, p: Params, fault: Option<nat>,
                          e: Option<TxError>, plan: Plan) {
    if enabled then Planned(s, next, r, p, plan) && Commits(s, t, plan.ops, fault, e)
      && (e.None? ==> Synced(s, t, r, p, plan))
    else e == Some(ErrSyncDisabled) && t == s
  }

  lemma CommitSyncs(s: Store, t: Store, next: Id, r: Report, p: Params, fault: Option<nat>, e: Option<TxError>,
                    plan: Plan)
    requires Syncs(s, next, r, p, plan) && Commits(s, t, plan.ops, fault, e)
    ensures Outcome(true, s, t, next, r, p, fault, e, plan)
  {}

  lemma CommitSane(s: Store, t: Store, next: Id, r: Report, p: Params, fault: Option<nat>, e: Option<TxError>,
                   plan: Plan)
    requires Syncs(s, next, r, p, plan) && Commits(s, t, plan.ops, fault, e)
    ensures Sane(t, plan.next)
  {}

  method PlanLoaded(loaded: State, r: Report, p: Params, next: Id, ghost s: Store) returns (plan: Plan)
    requires Ready(s, next, r, p) && Loads(s, r, loaded)
    ensures Syncs(s, next, r, p, plan)
  {
    plan := HostPlanner.BuildPlan(loaded, r, p, next);
    AppliedUnused(s, loaded, r, p, next);
    if Exec(s, plan.ops).Ok? { PlanSyncs(s, Exec(s, plan.ops).value, loaded, r, p, next); }
  }

  class Mem {
    var devices: map<Id, Device>
    var ifaces: map<Id, Iface>
    var addrs: map<Id, AddrRow>
    var subnets: map<Id, Subnet>
    var packages: map<Id, seq<Package>>
    var guests: map<Id, Guest>
    var hardware: map<Id, Hardware>
    var audit: seq<Audit>
    var clock: Time
    var enabled: bool
    var next: Id

    function Data(): Store
      reads this`devices, this`ifaces, this`addrs, this`subnets, this`packages, this`guests, this`hardware,
          this`audit, this`clock
    {
      Store(devices, ifaces, addrs, subnets, packages, guests, hardware, audit, clock)
    }

    constructor (clock: Time)
      ensures Data() == Store(map[], map[], map[], map[], map[], map[], map[], [], clock) && !enabled && next == 1
    {
      devices, ifaces, addrs, subnets, packages, guests, hardware := map[], map[], map[], map[], map[], map[], map[];
      audit, this.clock, enabled, next := [], clock, false, 1;
    }

    // ---- reads

    method DeviceByInventoryHost(host: string) returns (d: Option<Device>)
      requires forall i :: i in devices ==> devices[i].id == i
      ensures d.Some? ==> d.value.id in devices && devices[d.value.id] == d.value && LinkedTo(d.value, host)
      ensures d.None? ==> forall i :: i in devices ==> !LinkedTo(devices[i], host)
    {
      d := None;
      var keys, done: set<Id> := devices.Keys, {};
      while keys != {}
        invariant keys + done == devices.Keys
        invariant forall i :: i in done ==> !LinkedTo(devices[i], host)
        decreases keys
      {
        var k :| k in keys;
        if devices[k].cols.inventory != "" && Lower(devices[k].cols.inventory) == Lower(host) {
          return Some(devices[k]);
        }
        keys, done := keys - {k}, done + {k};
      }
    }

    method DevicesByMAC(macs: set<string>) returns (os: seq<MacOwner>)
      requires IfacesOwned(Data())
      ensures ListsOwners(os, Data(), macs)
    {
      os := [];
      var keys, done: set<Id> := ifaces.Keys, {};
      while keys != {}
        invariant keys + done == ifaces.Keys
        invariant forall o :: o in os <==> (o.mac in macs && OwnedIn(Data(), done, o))
        decreases keys
      {
        var k :| k in keys;
        var i := ifaces[k];
        ghost var os0, done0 := os, done;
        if i.cols.mac != "" && Lower(i.cols.mac) in macs {
          os := os + [MacOwner(Lower(i.cols.mac), i.device, devices[i.device].hypervisor)];
        }
        keys, done := keys - {k}, done + {k};
        forall o ensures o in os <==> (o.mac in macs && OwnedIn(Data(), done, o)) {
          OwnerStep(Data(), os0, os, done0, k, macs, o);
        }
      }
      assert done == ifaces.Keys;
    }

    method LoadCandidates(r: Report) returns (st: State)
      requires WellFormed(Data())
      ensures LoadsCandidates(Data(), r, st)
    {
      var id := (d: Device) => d.id;
      var byHost := DeviceByInventoryHost(r.host);
      var bySerial: seq<Device> := [];
      if byHost.None? && !IsPlaceholderSerial(r.serial) {
        bySerial := Collect(devices, id, (d: Device) => Trim(r.serial) != "" && SameSerial(d, r.serial));
      }
      var byName := Collect(devices, id, (d: Device) => Lower(d.cols.name) == Lower(BaseName(r))
                                                     || Lower(d.cols.name) == Lower(CollisionName(BaseName(r),
                                                         r.host)));
      st := State(byHost, bySerial, byName, [], [], [], [], [], [], [], [], None);
    }

    /** Everything the planner needs for one report. */
    method Load(r: Report) returns (st: State)
      requires WellFormed(Data())
      ensures Loads(Data(), r, st)
    {
      var cands := LoadCandidates(r);
      var m := Match(cands, r);
      if m.Some? {
        st := LoadDevice(r, cands, m.value.id);
      } else {
        st := LoadNoDevice(r, cands);
      }
      SameCandidates(Data(), r, cands, st);
    }

    method LoadNoDevice(r: Report, st0: State) returns (st: State)
      requires WellFormed(Data())
      ensures LoadsNone(Data(), r, st)
      ensures st.byHost == st0.byHost && st.bySerial == st0.bySerial && st.byName == st0.byName
    {
      var found := Collect(addrs, (a: AddrRow) => a.id, (a: AddrRow) => a.text in Asked(r));
      var nets := Collect(subnets, (n: Subnet) => n.id, (n: Subnet) => true);
      var owners := DevicesByMAC(GuestMacs(r));
      var rows := Collect(guests, (g: Guest) => g.id, (g: Guest) => HasMac(g, OwnMacs(r)));
      st := State(st0.byHost, st0.bySerial, st0.byName, [], found, nets, [], [], owners, [], rows, None);
    }

    method LoadDevice(r: Report, st0: State, dev: Id) returns (st: State)
      requires WellFormed(Data())
      ensures LoadsFor(Data(), r, st, dev)
      ensures st.byHost == st0.byHost && st.bySerial == st0.bySerial && st.byName == st0.byName
    {
      var nics := Collect(ifaces, (i: Iface) => i.id, (i: Iface) => i.device == dev);
      var found := Collect(addrs, (a: AddrRow) => a.id, (a: AddrRow) => a.cols.device == dev || a.text in Asked(r));
      var nets := Collect(subnets, (n: Subnet) => n.id, (n: Subnet) => true);
      var gs := Collect(guests, (g: Guest) => g.id, (g: Guest) => g.host == dev);
      var owners := DevicesByMAC(GuestMacs(r));
      var gds := Collect(devices, (d: Device) => d.id, (d: Device) => d.hypervisor == dev);
      var rows := Collect(guests, (g: Guest) => g.id, (g: Guest) => HasMac(g, OwnMacs(r)));
      st := State(st0.byHost, st0.bySerial, st0.byName, nics, found, nets, PackagesIn(packages, dev), gs, owners, gds,
        rows,
                  if r.hardware.Some? then HardwareIn(hardware, dev) else None);
    }

    // ---- writes

    method InsertDevice(d: Device) returns (e: Option<TxError>)
      modifies this`devices
      ensures e.None? ==> Write(old(Data()), CreateDevice(d, [])) == Ok(Data())
      ensures e.Some? ==> Write(old(Data()), CreateDevice(d, [])) == Err(e.value) && Data() == old(Data())
    {
      if NameTaken(devices, d.id, d.cols.name) { return Some(ErrConflict); }
      if d.cols.inventory != "" && Linked(devices, d.cols.inventory) { return Some(ErrConflict); }
      devices := devices[d.id := d];
      e := None;
    }

    method UpdateDeviceReported(d: Device) returns (e: Option<TxError>)
      modifies this`devices
      ensures e.None? ==> Write(old(Data()), UpdateDevice(d, [])) == Ok(Data())
      ensures e.Some? ==> Write(old(Data()), UpdateDevice(d, [])) == Err(e.value) && Data() == old(Data())
    {
      if d.id !in devices { return Some(ErrNotFound); }
      if NameTaken(devices, d.id, d.cols.name) { return Some(ErrConflict); }
      var cur := devices[d.id];
      devices := devices[d.id := cur.(cols := d.cols)];
      e := None;
    }

    method UpsertInterfaceReported(i: Iface, create: bool) returns (e: Option<TxError>)
      modifies this`ifaces
      ensures var op := if create then CreateIface(i, []) else UpdateIface(i, []);
              && (e.None? ==> Write(old(Data()), op) == Ok(Data()))
              && (e.Some? ==> Write(old(Data()), op) == Err(e.value) && Data() == old(Data()))
    {
      e := None;
      if create {
        if HasIface(ifaces, i.device, i.name) { return Some(ErrConflict); }
        ifaces := ifaces[i.id := i];
        return;
      }
      if i.id !in ifaces { return Some(ErrNotFound); }
      ifaces := ifaces[i.id := ifaces[i.id].(cols := i.cols)];
    }

    method InsertAddressReported(a: AddrRow) returns (e: Option<TxError>)
      modifies this`addrs
      ensures e.None? ==> Write(old(Data()), CreateAddr(a, [])) == Ok(Data())
      ensures e.Some? ==> Write(old(Data()), CreateAddr(a, [])) == Err(e.value) && Data() == old(Data())
    {
      if HasAddr(addrs, a.text) { return Some(ErrConflict); }
      var row := a.(mac := Provenance("", 0, None));
      if a.cols.mac != "" { row := row.(mac := Provenance("agent", 0, Some(clock))); }
      addrs := addrs[a.id := row];
      e := None;
    }

    method UpdateAddressReported(a: AddrRow) returns (e: Option<TxError>)
      modifies this`addrs
      ensures e.None? ==> Write(old(Data()), UpdateAddr(a, [])) == Ok(Data())
      ensures e.Some? ==> Write(old(Data()), UpdateAddr(a, [])) == Err(e.value) && Data() == old(Data())
    {
      if a.id !in addrs { return Some(ErrNotFound); }
      var cur := addrs[a.id].(cols := a.cols);
      if a.cols.state == Reported {
        cur := cur.(mac := Provenance("", 0, None));
        if a.cols.mac != "" { cur := cur.(mac := Provenance("agent", 0, Some(clock))); }
      }
      addrs := addrs[a.id := cur];
      e := None;
    }

    method ReplaceGuestRows(host: Id, rows: seq<Guest>)
      modifies this`guests
      ensures Write(old(Data()), ReplaceGuests(host, rows, [])) == Ok(Data())
    {
      guests := WithoutHost(guests, host);
      var base := guests;
      var k := 0;
      while k < |rows|
        invariant 0 <= k <= |rows| && guests == PutGuests(base, host, rows, k)
      {
        guests := guests[rows[k].id := rows[k].(host := host)];
        k := k + 1;
      }
    }

    method SetDeviceHypervisor(dev: Id, ref: Id) returns (e: Option<TxError>)
      modifies this`devices
      ensures e.None? ==> Write(old(Data()), SetHypervisor(dev, ref, [])) == Ok(Data())
      ensures e.Some? ==> Write(old(Data()), SetHypervisor(dev, ref, [])) == Err(e.value) && Data() == old(Data())
    {
      if dev !in devices || dev == ref { return Some(ErrNotFound); }
      devices := devices[dev := devices[dev].(hypervisor := ref)];
      e := None;
    }

    /** The one write an operation stands for. */
    method Do(op: Op) returns (e: Option<TxError>)
      modifies this`devices, this`ifaces, this`addrs, this`subnets, this`packages, this`guests, this`hardware
      ensures e.None? ==> Write(old(Data()), op) == Ok(Data())
      ensures e.Some? ==> Write(old(Data()), op) == Err(e.value) && Data() == old(Data())
    {
      e := None;
      match op
      case CreateDevice(d, _) => e := InsertDevice(d);
      case UpdateDevice(d, _) => e := UpdateDeviceReported(d);
      case CreateIface(i, _) => e := UpsertInterfaceReported(i, true);
      case UpdateIface(i, _) => e := UpsertInterfaceReported(i, false);
      case CreateSubnet(n, _) =>
        if HasSubnet(subnets, n.name) { return Some(ErrConflict); }
        subnets := subnets[n.id := n];
      case CreateAddr(a, _) => e := InsertAddressReported(a);
      case UpdateAddr(a, _) => e := UpdateAddressReported(a);
      case ReplacePackages(t, ps, _) => packages := packages[t := ps];
      case ReplaceGuests(t, gs, _) => ReplaceGuestRows(t, gs);
      case SetHypervisor(t, ref, _) => e := SetDeviceHypervisor(t, ref);
      case SetGuestDevice(row, ref, _) =>
        if row !in guests { return Some(ErrNotFound); }
        guests := guests[row := guests[row].(device := ref)];
      case ReplaceHardware(h, _) =>
        if h.device !in devices { return Some(ErrNotFound); }
        hardware := hardware[h.device := h];
    }

    /** A write and its audit rows. */
    method DoAudited(op: Op) returns (e: Option<TxError>)
      modifies this`devices, this`ifaces, this`addrs, this`subnets, this`packages, this`guests, this`hardware,
          this`audit
      ensures Perform(old(Data()), op) == if e.None? then Ok(Data()) else Err(e.value)
      ensures |old(audit)| <= |audit| && audit[..|old(audit)|] == old(audit)
    {
      e := Do(op);
      if e.None? { audit := audit + op.audit; }
    }

    method ExecuteAt(ops: seq<Op>, k: nat) returns (e: Option<TxError>)
      requires k < |ops|
      modifies this`devices, this`ifaces, this`addrs, this`subnets, this`packages, this`guests, this`hardware,
          this`audit
      ensures Exec(old(Data()), ops[k..]) == if e.None? then Exec(Data(), ops[k + 1..]) else Err(e.value)
      ensures |old(audit)| <= |audit| && audit[..|old(audit)|] == old(audit)
    {
      e := DoAudited(ops[k]);
      ExecNext(old(Data()), ops, k);
    }

    /** The writes in order, each followed by its audit rows; `fault` is where the store fails by itself. */
    method Execute(ops: seq<Op>, fault: Option<nat>) returns (e: Option<TxError>)
      modifies this`devices, this`ifaces, this`addrs, this`subnets, this`packages, this`guests, this`hardware,
          this`audit
      ensures Ends(old(Data()), Data(), ops, fault, e)
      ensures |old(audit)| <= |audit| && audit[..|old(audit)|] == old(audit)
    {
      e := None;
      RanNothing(Data(), ops, fault);
      for k := 0 to |ops|
        invariant e.None? && Ran(old(Data()), Data(), ops, fault, k)
      {
        if fault == Some(k) { return Some(ErrFault); }
        ghost var before := Data();
        e := ExecuteAt(ops, k);
        RanOne(old(Data()), before, Data(), ops, fault, k, e);
        if e.Some? { return; }
      }
      RanAll(old(Data()), Data(), ops, fault);
    }

    method LoadAndPlan(r: Report, p: Params) returns (plan: Plan)
      requires Ready(Data(), next, r, p)
      ensures Syncs(Data(), next, r, p, plan)
    {
      var loaded := Load(r);
      plan := PlanLoaded(loaded, r, p, next, Data());
    }

    method Restore(snap: Store)
      requires |snap.audit| <= |audit| && audit[..|snap.audit|] == snap.audit && clock == snap.clock
      modifies this`devices, this`ifaces, this`addrs, this`subnets, this`packages, this`guests, this`hardware,
          this`audit
      ensures Data() == snap
    {
      devices, ifaces, addrs, subnets := snap.devices, snap.ifaces, snap.addrs, snap.subnets;
      packages, guests, hardware, audit := snap.packages, snap.guests, snap.hardware, audit[..|snap.audit|];
    }

    /** The writes; any error restores the store. */
    method Commit(ops: seq<Op>, fault: Option<nat>) returns (e: Option<TxError>)
      modifies this`devices, this`ifaces, this`addrs, this`subnets, this`packages, this`guests, this`hardware,
          this`audit
      ensures Commits(old(Data()), Data(), ops, fault, e)
    {
      var snap := Data();
      e := Execute(ops, fault);
      if e.Some? { Restore(snap); }
    }

    method RunPlan(r: Report, p: Params, plan: Plan, fault: Option<nat>) returns (e: Option<TxError>)
      requires Syncs(Data(), next, r, p, plan)
      modifies this`devices, this`ifaces, this`addrs, this`subnets, this`packages, this`guests, this`hardware,
          this`audit, this`next
      ensures Outcome(true, old(Data()), Data(), old(next), r, p, fault, e, plan) && Sane(Data(), next)
    {
      next := plan.next;
      e := Commit(plan.ops, fault);
      CommitSyncs(old(Data()), Data(), old(next), r, p, fault, e, plan);
      CommitSane(old(Data()), Data(), old(next), r, p, fault, e, plan);
    }

    method Refuse(r: Report, p: Params, fault: Option<nat>) returns (e: Option<TxError>, plan: Plan)
      requires !enabled
      ensures Outcome(enabled, Data(), Data(), next, r, p, fault, e, plan)
    {
      e, plan := Some(ErrSyncDisabled), Plan(0, next, []);
    }

    /** One report, all or nothing: load, plan and execute. */
    method ApplyHostReport(r: Report, p: Params, fault: Option<nat>) returns (e: Option<TxError>, plan: Plan)
      requires Ready(Data(), next, r, p)
      modifies this
      ensures enabled == old(enabled)
      ensures Outcome(old(enabled), old(Data()), Data(), old(next), r, p, fault, e, plan) && Sane(Data(), next)
    {
      if enabled {
        plan := LoadAndPlan(r, p);
        e := RunPlan(r, p, plan, fault);
      } else {
        e, plan := Refuse(r, p, fault);
      }
    }

    // ---- a host that left inventory

    method UnreportIfaces(dev: Id)
      modifies this`ifaces
      ensures ifaces == GoneIfaces(old(ifaces), dev)
    {
      ghost var was := ifaces;
      var keys, done: set<Id> := ifaces.Keys, {};
      while keys != {}
        invariant keys !! done && keys + done == was.Keys == ifaces.Keys
        invariant forall i :: i in was ==> ifaces[i] == if i in done then GoneIface(was[i], dev) else was[i]
        decreases keys
      {
        var k :| k in keys;
        var i := ifaces[k];
        if i.device == dev && i.cols.state == Reported {
          ifaces := ifaces[k := i.(cols := i.cols.(state := NotReported))];
        }
        keys, done := keys - {k}, done + {k};
      }
    }

    method UnreportAddrs(dev: Id)
      modifies this`addrs
      ensures addrs == GoneAddrs(old(addrs), dev)
    {
      ghost var was := addrs;
      var keys, done: set<Id> := addrs.Keys, {};
      while keys != {}
        invariant keys !! done && keys + done == was.Keys == addrs.Keys
        invariant forall i :: i in was ==> addrs[i] == if i in done then GoneAddr(was[i], dev) else was[i]
        decreases keys
      {
        var k :| k in keys;
        var a := addrs[k];
        if a.cols.device == dev && a.cols.state == Reported {
          addrs := addrs[k := a.(cols := a.cols.(state := NotReported))];
        }
        keys, done := keys - {k}, done + {k};
      }
    }

    method MarkDeviceNotReported(dev: Id) returns (e: Option<TxError>)
      modifies this`devices, this`ifaces, this`addrs
      ensures dev in old(devices) ==> e.None? && Data() == Unreport(old(Data()), dev)
      ensures dev !in old(devices) ==> e == Some(ErrNotFound) && Data() == old(Data())
    {
      if dev !in devices { return Some(ErrNotFound); }
      devices := devices[dev := devices[dev].(cols := devices[dev].cols.(state := NotReported))];
      UnreportIfaces(dev);
      UnreportAddrs(dev);
      e := None;
    }

    /** The transaction of markGone; `fault` is the call at which the store fails by itself. */
    method MarkHost(host: string, fault: Option<nat>) returns (e: Option<TxError>)
      requires WellFormed(Data())
      modifies this`devices, this`ifaces, this`addrs, this`audit
      ensures e.None? ==> GoneStep(old(Data()), Data(), host)
      ensures e.Some? ==> fault.Some? && e.value == ErrFault
      ensures |old(audit)| <= |audit| && audit[..|old(audit)|] == old(audit)
    {
      if fault == Some(0) { return Some(ErrFault); }
      var d := DeviceByInventoryHost(host);
      e := None;
      if d.None? || d.value.cols.state == NotReported {
        GoneNone(Data(), host, d);
        return;
      }
      GoneSome(Data(), host, d.value.id);
      if fault == Some(1) { return Some(ErrFault); }
      e := MarkDeviceNotReported(d.value.id);
      if fault == Some(2) { return Some(ErrFault); }
      audit := audit + [Audit(DeviceNotReported, d.value.id)];
    }

    /** runner.markGone: refused for a disabled tenant, restored after an error. */
    method MarkGone(host: string, fault: Option<nat>) returns (e: Option<TxError>)
      requires Sane(Data(), next)
      modifies this`devices, this`ifaces, this`addrs, this`subnets, this`packages, this`guests, this`hardware,
          this`audit
      ensures MarkEnds(enabled, old(Data()), Data(), host, fault.Some?, e) && Sane(Data(), next)
    {
      if !enabled { return Some(ErrSyncDisabled); }
      var snap := Data();
      e := MarkHost(host, fault);
      if e.Some? { Restore(snap); }
      MarkKeeps(old(Data()), Data(), host, next, fault.Some?, e);
    }
  }
}
