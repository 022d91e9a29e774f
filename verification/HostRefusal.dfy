/** When a report is refused: for a device name taken twice or a subnet name taken twice, and nothing else. */
module HostRefusal {
  import opened Wrappers
  import opened Ipnet
  import opened HostStore
  import opened HostReport
  import opened HostPlan
  import opened HostLoad
  import opened HostSections
  import opened HostSelf
  import opened HostParts
  import opened HostSync
  import opened HostLawful
  import opened HostOpened
  import opened HostNewSubnets
  import HostAddrs
  import HostGuests
  import HostIfaces

  // ---- interfaces

  ghost predicate IfacesNamed(ops: seq<Op>, dev: Id, ws: seq<Wanted>, n: nat)
    requires n <= |ws|
  {
    forall op :: op in ops && op.CreateIface? ==> op.iface.device == dev && WantedNamed(ws, n, op.iface.name).Some?
  }

  lemma NamedMore(ops: seq<Op>, dev: Id, ws: seq<Wanted>, n: nat)
    requires 0 < n <= |ws| && IfacesNamed(ops, dev, ws, n - 1)
    ensures IfacesNamed(ops, dev, ws, n)
  {}

  lemma NoIface(t: Store, rows: seq<Iface>, dev: Id, name: string)
    requires KeysAreIds(t) && ListsIfaces(rows, t.ifaces, dev) && FindIface(rows, |rows|, name).None?
    ensures !HasIface(t.ifaces, dev, name)
  {
    assert rows[..|rows|] == rows;
    forall i | i in t.ifaces && t.ifaces[i].device == dev ensures t.ifaces[i].name != name {
      assert t.ifaces[i] in rows;
    }
  }

  lemma WantedStepLawful(t: Store, acc: Acc, rows: seq<Iface>, dev: Id, ws: seq<Wanted>, n: nat)
    requires 0 < n <= |ws| && KeysAreIds(t) && ListsIfaces(rows, t.ifaces, dev) && DistinctWanted(ws)
    requires Lawful(t, acc.ops) && IfacesNamed(acc.ops, dev, ws, n - 1)
    ensures var ops := IfaceStep(acc, rows, dev, ws[n - 1]).ops; Lawful(t, ops) && IfacesNamed(ops, dev, ws, n)
  {
    var w := ws[n - 1];
    var ex := FindIface(rows, |rows|, w.name);
    NamedMore(acc.ops, dev, ws, n);
    HostIfaces.NotYet(ws, n);
    assert rows[..|rows|] == rows;
    if ex.None? {
      NoIface(t, rows, dev, w.name);
      LawfulAdd(t, acc.ops, CreateIface(NewIface(acc.next, dev, w), [Audit(InterfaceCreated, acc.next)]));
    } else {
      var want := ex.value.(cols := Refreshed(ex.value.cols, w));
      LawfulAdd(t, acc.ops, UpdateIface(want, [Audit(InterfaceUpdated, want.id)]));
    }
  }

  lemma {:induction false} WantedLawful(t: Store, next: Id, rows: seq<Iface>, dev: Id, ws: seq<Wanted>, n: nat)
    requires n <= |ws| && KeysAreIds(t) && ListsIfaces(rows, t.ifaces, dev) && DistinctWanted(ws)
    ensures var ops := PlanWanted(next, rows, dev, ws, n).ops; Lawful(t, ops) && IfacesNamed(ops, dev, ws, n)
  {
    if n > 0 {
      WantedLawful(t, next, rows, dev, ws, n - 1);
      WantedStepLawful(t, PlanWanted(next, rows, dev, ws, n - 1), rows, dev, ws, n);
    }
  }

  lemma {:induction false} LostLawful(t: Store, acc: Acc, rows: seq<Iface>, ws: seq<Wanted>, noBmc: bool, n: nat)
    requires n <= |rows| && Lawful(t, acc.ops) && forall i :: i in rows ==> i.id in t.ifaces
    ensures Lawful(t, PlanLost(acc, rows, ws, noBmc, n).ops)
  {
    if n > 0 {
      LostLawful(t, acc, rows, ws, noBmc, n - 1);
      var i := rows[n - 1];
      LawfulAdd(t, PlanLost(acc, rows, ws, noBmc, n - 1).ops,
        UpdateIface(i.(cols := i.cols.(state := NotReported)), [Audit(InterfaceNotReported, i.id)]));
    }
  }

  lemma IfacesLawful(t: Store, next: Id, st: State, r: Report, dev: Id)
    requires KeysAreIds(t) && ListsIfaces(st.ifaces, t.ifaces, dev) && Normalized(r)
    ensures Lawful(t, PlanIfaces(next, st, r, dev).ops)
  {
    var ws := WantedIfaces(r);
    WantedDistinct(r);
    WantedLawful(t, next, st.ifaces, dev, ws, |ws|);
    LostLawful(t, PlanWanted(next, st.ifaces, dev, ws, |ws|), st.ifaces, ws, r.bmc.None?, |st.ifaces|);
  }

  // ---- addresses and subnets

  lemma {:induction false} ReleasesLawful(t: Store, ds: seq<Cidr>, acc: Acc, rows: seq<AddrRow>, dev: Id,
                                          seen: set<Text>, noBmc: bool, n: nat)
    requires n <= |rows| && Lawful(t, acc.ops) && Written(t.subnets, ds, acc.ops)
          && forall a :: a in rows ==> a.id in t.addrs
    ensures var ops := PlanReleases(acc, rows, dev, seen, noBmc, n).ops; Lawful(t, ops) && Written(t.subnets, ds, ops)
  {
    if n > 0 {
      ReleasesLawful(t, ds, acc, rows, dev, seen, noBmc, n - 1);
      var ops, a := PlanReleases(acc, rows, dev, seen, noBmc, n - 1).ops, rows[n - 1];
      var op := UpdateAddr(Released(a, dev), [Audit(AddressReleased, a.id)]);
      LawfulAdd(t, ops, op);
      WrittenOther(t.subnets, ds, ops, op);
    }
  }

  /** The networks the report opens in this store. */
  ghost function Opens(t: Store, r: Report): seq<Cidr> {
    Opened(t.subnets, t.addrs, AllClaims(r), |AllClaims(r)|)
  }

  lemma AddrsLawful(t: Store, next: Id, st: State, r: Report, p: Params, dev: Id)
    requires KeysAreIds(t) && UniqueTexts(t.addrs) && ListsAddrs(st.addrs, t.addrs, dev, Asked(r)) && dev != 0
    requires ListsSubnets(st.subnets, t.subnets)
    requires (forall i :: i in t.addrs ==> i < next) && forall i :: i in t.subnets ==> i < next
    ensures var ops := PlanAddrs(next, st, r, p, dev).ops; Lawful(t, ops) && Written(t.subnets, Opens(t, r), ops)
  {
    var x := PassOf(t.addrs, st, r, p, next, dev, t.clock);
    ClaimsAsked(r);
    TrackAll(t, st.subnets, x, |x.cs|);
    var a := HostAddrs.PlanAt(x, |x.cs|);
    ReleasesLawful(t, Opens(t, r), Acc(a.next, a.ops), st.addrs, dev, a.seen, r.bmc.None?, |st.addrs|);
  }

  // ---- guests

  ghost predicate LinkOps(t: Store, ops: seq<Op>) {
    forall op :: op in ops ==> op.SetHypervisor? && Sound(t, op)
  }

  lemma LinksLawful(t: Store, ops: seq<Op>)
    requires LinkOps(t, ops)
    ensures Lawful(t, ops)
  {
    forall j, k | 0 <= j < k < |ops| ensures Apart(t, ops[j], ops[k]) {
      assert ops[j] in ops && ops[k] in ops;
    }
  }

  lemma {:induction false} GuestLinks(s: Store, t: Store, next: Id, st: State, dev: Id, r: Report, p: Params, n: nat)
    requires KeysAreIds(s) && IfacesOwned(s) && ListsOwners(st.macOwners, s, GuestMacs(r)) && n <= |r.guests|
    requires s.devices.Keys <= t.devices.Keys
    ensures LinkOps(t, PlanGuestRows(next, st, dev, r, p, n).ops)
  {
    if n > 0 {
      GuestLinks(s, t, next, st, dev, r, p, n - 1);
      HostGuests.OwnerFound(s, st.macOwners, r, dev, r.guests[n - 1]);
    }
  }

  lemma {:induction false} UnlinkLinks(t: Store, acc: Acc, ds: seq<Device>, linked: set<Id>, n: nat)
    requires n <= |ds| && LinkOps(t, acc.ops) && forall d :: d in ds ==> d.id in t.devices && d.id > 0
    ensures LinkOps(t, PlanUnlinks(acc, ds, linked, n).ops)
  {
    if n > 0 { UnlinkLinks(t, acc, ds, linked, n - 1); }
  }

  lemma GuestsLawful(s: Store, t: Store, next: Id, st: State, r: Report, p: Params, dev: Id)
    requires KeysAreIds(s) && IfacesOwned(s) && LoadsFor(s, r, st, dev) && s.devices.Keys <= t.devices.Keys
    ensures var ops := PlanGuests(next, st, r, p, dev).ops;
            Lawful(t, ops) && forall op :: op in ops && op.ReplaceGuests? ==> op.target == dev
  {
    var a := PlanGuestRows(next, st, dev, r, p, |r.guests|);
    var u := PlanUnlinks(Acc(a.next, a.ops), st.guestDevices, a.linked, |st.guestDevices|);
    GuestLinks(s, t, next, st, dev, r, p, |r.guests|);
    UnlinkLinks(t, Acc(a.next, a.ops), st.guestDevices, a.linked, |st.guestDevices|);
    LinksLawful(t, u.ops);
    LawfulAdd(t, u.ops, ReplaceGuests(dev, Stamped(a.want, p.now), [Audit(DeviceUpdated, dev)]));
  }

  // ---- this device as a guest

  /** The rows written to as guests belong to other hosts. */
  ghost predicate SelfRows(t: Store, ops: seq<Op>, dev: Id) {
    forall op :: op in ops ==>
      Sound(t, op) && (op.SetHypervisor? || (op.SetGuestDevice? && t.guests[op.row].host != dev))
  }

  lemma {:induction false} SelfRowsSound(t: Store, ops: seq<Op>, rows: seq<Guest>, dev: Id, macs: set<string>, n: nat)
    requires n <= |rows| && SelfRows(t, ops, dev) && forall g :: g in rows ==> g.id in t.guests && t.guests[g.id] == g
    ensures SelfRows(t, PlanSelfRows(ops, rows, dev, macs, n), dev)
  {
    if n > 0 { SelfRowsSound(t, ops, rows, dev, macs, n - 1); }
  }

  lemma SelfLawful(t: Store, st: State, r: Report, dev: Device)
    requires ListsGuestRows(st.guestRows, t.guests, OwnMacs(r)) && dev.id in t.devices
    ensures Lawful(t, PlanSelf(st, r, dev)) && SelfRows(t, PlanSelf(st, r, dev), dev.id)
  {
    var macs := Macs(WantedIfaces(r));
    var hosts := Hosts(st.guestRows, dev.id, macs);
    if |hosts| == 1 {
      SelfRowsSound(t, OwnLink(dev, TheOne(hosts)), st.guestRows, dev.id, macs, |st.guestRows|);
    }
    var ops := PlanSelf(st, r, dev);
    forall j, k | 0 <= j < k < |ops| ensures Apart(t, ops[j], ops[k]) {
      assert ops[j] in ops && ops[k] in ops;
    }
  }

  // ---- everything after the device

  function Rest(q: Parts): seq<Op> {
    q.ifaces + q.addrs + q.packages + q.hardware + q.guests + q.self
  }

  lemma PlainLawful(t: Store, ops: seq<Op>)
    requires forall op :: op in ops ==> op.ReplacePackages? || (op.ReplaceHardware? && op.hardware.device in t.devices)
    ensures Lawful(t, ops)
  {
    forall j, k | 0 <= j < k < |ops| ensures Apart(t, ops[j], ops[k]) {
      assert ops[j] in ops && ops[k] in ops;
    }
  }

  /** Sections do not get in each other's way. */
  lemma RestLawful(t: Store, q: Parts, dev: Id)
    requires Kinds(q) && Lawful(t, q.ifaces) && Lawful(t, q.addrs) && Lawful(t, q.packages) && Lawful(t, q.hardware)
    requires PeopleLawful(t, q.guests, q.self, dev)
    ensures Lawful(t, Rest(q))
  {
    LawfulJoin(t, q.ifaces, q.addrs);
    LawfulJoin(t, q.ifaces + q.addrs, q.packages);
    LawfulJoin(t, q.ifaces + q.addrs + q.packages, q.hardware);
    LawfulJoin(t, q.ifaces + q.addrs + q.packages + q.hardware, q.guests);
    LawfulJoin(t, q.ifaces + q.addrs + q.packages + q.hardware + q.guests, q.self);
  }

  lemma RestWritten(subnets: map<Id, Subnet>, ds: seq<Cidr>, q: Parts)
    requires Kinds(q) && Written(subnets, ds, q.addrs)
    ensures Written(subnets, ds, Rest(q))
  {
    forall op | op in Rest(q) && op.CreateSubnet? ensures op in q.addrs {}
    forall d | d in ds ensures exists op :: op in Rest(q) && Creates(op, d) {
      var op :| op in q.addrs && Creates(op, d);
      assert op in Rest(q);
    }
  }

  /** The store the device write leaves. */
  ghost predicate AfterDevice(s: Store, t: Store, dev: Id) {
    && t == s.(devices := t.devices, audit := t.audit) && s.devices.Keys <= t.devices.Keys && dev in t.devices
    && KeysAreIds(t)
  }

  /** The rows sections, and the networks opened. */
  ghost predicate RowsLawful(t: Store, ds: seq<Cidr>, ifaces: seq<Op>, addrs: seq<Op>) {
    Lawful(t, ifaces) && Lawful(t, addrs) && Written(t.subnets, ds, addrs)
  }

  lemma RowSections(t: Store, st: State, r: Report, p: Params, n0: Id, n1: Id, dev: Id)
    requires KeysAreIds(t) && UniqueTexts(t.addrs) && Normalized(r) && LoadsRows(t, r, st, dev)
    requires dev != 0 && (forall i :: i in t.addrs ==> i < n1) && forall i :: i in t.subnets ==> i < n1
    ensures RowsLawful(t, Opens(t, r), PlanIfaces(n0, st, r, dev).ops, PlanAddrs(n1, st, r, p, dev).ops)
  {
    IfacesLawful(t, n0, st, r, dev);
    AddrsLawful(t, n1, st, r, p, dev);
  }

  ghost predicate LoadsRows(t: Store, r: Report, st: State, dev: Id) {
    && ListsIfaces(st.ifaces, t.ifaces, dev) && ListsAddrs(st.addrs, t.addrs, dev, Asked(r))
    && ListsSubnets(st.subnets, t.subnets)
  }

  /** The guest sections. */
  ghost predicate PeopleLawful(t: Store, guests: seq<Op>, self: seq<Op>, dev: Id) {
    && Lawful(t, guests) && Lawful(t, self) && SelfRows(t, self, dev)
    && forall op :: op in guests && op.ReplaceGuests? ==> op.target == dev
  }

  lemma PeopleSections(s: Store, t: Store, st: State, r: Report, p: Params, n: Id, dev: Device)
    requires KeysAreIds(s) && IfacesOwned(s) && LoadsFor(s, r, st, dev.id) && AfterDevice(s, t, dev.id)
    ensures PeopleLawful(t, PlanGuests(n, st, r, p, dev.id).ops, PlanSelf(st, r, dev), dev.id)
  {
    GuestsLawful(s, t, n, st, r, p, dev.id);
    SelfLawful(t, st, r, dev);
  }

  lemma PlainSections(t: Store, st: State, r: Report, p: Params, n: Id, dev: Id)
    requires dev in t.devices
    ensures Lawful(t, PlanPackages(n, st, r, dev).ops) && Lawful(t, PlanHardware(st, r, p, dev))
  {
    PlainLawful(t, PlanPackages(n, st, r, dev).ops);
    PlainLawful(t, PlanHardware(st, r, p, dev));
  }

  lemma LoadsRowsAfter(s: Store, t: Store, st: State, r: Report, next: Id, dev: Id)
    requires WellFormed(s) && Unused(s, next) && LoadsFor(s, r, st, dev) && AfterDevice(s, t, dev)
    ensures UniqueTexts(t.addrs) && LoadsRows(t, r, st, dev)
    ensures (forall i :: i in t.addrs ==> i < next) && forall i :: i in t.subnets ==> i < next
  {}

  lemma SectionsLawful(s: Store, t: Store, st: State, r: Report, p: Params, next: Id)
    requires WellFormed(s) && Unused(s, next) && Normalized(r) && Loads(s, r, st)
          && AfterDevice(s, t, PlanDevice(st, r, next).0.id)
    ensures var q := PartsOf(st, r, p, next);
            && RowsLawful(t, Opens(t, r), q.ifaces, q.addrs) && Lawful(t, q.packages) && Lawful(t, q.hardware)
            && PeopleLawful(t, q.guests, q.self, PlanDevice(st, r, next).0.id)
  {
    var dev, n0 := PlanDevice(st, r, next).0, PlanDevice(st, r, next).1.next;
    var n1 := PlanIfaces(n0, st, r, dev.id).next;
    var n2 := PlanAddrs(n1, st, r, p, dev.id).next;
    LoadedFor(s, st, r, next);
    NextOrder(st, r, p, next);
    LoadsRowsAfter(s, t, st, r, next, dev.id);
    RowSections(t, st, r, p, n0, n1, dev.id);
    PlainSections(t, st, r, p, n2, dev.id);
    PeopleSections(s, t, st, r, p, PlanPackages(n2, st, r, dev.id).next, dev);
  }

  // ---- the device

  /**
   Another device has the reported name up to case, so the report falls back on the name with the
   host's id, and that name is another device's too. A device that already is as reported is not written.
   */
  ghost predicate NameClash(devices: map<Id, Device>, found: Option<Device>, self: Id, r: Report) {
    var name := CollisionName(BaseName(r), r.host);
    && NameInUse(devices, self, BaseName(r)) && NameTaken(devices, self, name)
    && (found.Some? ==> WantCols(found.value.cols, name, r, false) != found.value.cols)
  }

  lemma NameForTaken(devices: map<Id, Device>, self: Id, r: Report)
    ensures NameTaken(devices, self, NameFor(devices, self, r))
       <==> NameInUse(devices, self, BaseName(r)) && NameTaken(devices, self, CollisionName(BaseName(r), r.host))
  {
    if NameTaken(devices, self, BaseName(r)) { assert NameInUse(devices, self, BaseName(r)); }
  }

  lemma CreatePasses(s: Store, d: Device, audit: seq<Audit>)
    requires KeysAreIds(s) && d.id > 0 && !Linked(s.devices, d.cols.inventory)
    ensures var e := Perform(s, CreateDevice(d, audit));
            if NameTaken(s.devices, d.id, d.cols.name) then e == Err(ErrConflict)
            else e.Ok? && AfterDevice(s, e.value, d.id)
  {}

  lemma UpdatePasses(s: Store, d: Device, audit: seq<Audit>)
    requires KeysAreIds(s) && d.id in s.devices
    ensures var e := Perform(s, UpdateDevice(d, audit));
            if NameTaken(s.devices, d.id, d.cols.name) then e == Err(ErrConflict)
            else e.Ok? && AfterDevice(s, e.value, d.id)
  {}

  /** The device section: no write, or one that fails exactly on a clash. */
  ghost predicate DeviceSection(s: Store, ops: seq<Op>, dev: Id, clash: bool) {
    if ops == [] then !clash && AfterDevice(s, s, dev)
    else
      var e := Perform(s, ops[0]);
      |ops| == 1 && if clash then e == Err(ErrConflict) else e.Ok? && AfterDevice(s, e.value, dev)
  }

  lemma DevicePasses(s: Store, st: State, r: Report, next: Id)
    requires WellFormed(s) && Unused(s, next) && Normalized(r) && LoadsCandidates(s, r, st)
    ensures var (dev, acc) := PlanDevice(st, r, next);
            DeviceSection(s, acc.ops, dev.id, NameClash(s.devices, Match(st, r), dev.id, r))
  {
    var m, dev := Match(st, r), PlanDevice(st, r, next).0;
    NameLoaded(s, st, r, dev.id);
    NameForTaken(s.devices, dev.id, r);
    if m.Some? {
      MatchIsStored(s, r, st);
      UpdatePasses(s, dev, [Audit(DeviceUpdated, dev.id)]);
    } else {
      NobodyLinked(s, st, r);
      CreatePasses(s, dev, [Audit(DeviceCreated, dev.id)]);
    }
  }

  lemma NobodyLinked(s: Store, st: State, r: Report)
    requires WellFormed(s) && Normalized(r) && LoadsCandidates(s, r, st) && Match(st, r).None?
    ensures !Linked(s.devices, r.host)
  {
    if i :| i in s.devices && s.devices[i].cols.inventory == r.host {
      OnlyOneLinked(s, st, r, i);
    }
  }

  // ---- the whole plan

  /** A network the report opens has its text taken up to case, and the text with the suffix taken as well. */
  ghost predicate SubnetClash(s: Store, r: Report) {
    AnyTakenTwice(s.subnets, Opens(s, r))
  }

  /** Refused with a conflict, or not refused. */
  predicate Ends(e: Result<Store, TxError>, refused: bool) {
    if refused then e == Err(ErrConflict) else e.Ok?
  }

  lemma RestRefused(s: Store, t: Store, st: State, r: Report, p: Params, next: Id)
    requires WellFormed(s) && Unused(s, next) && Normalized(r) && Loads(s, r, st)
          && AfterDevice(s, t, PlanDevice(st, r, next).0.id)
    ensures Ends(Exec(t, Rest(PartsOf(st, r, p, next))), SubnetClash(s, r))
  {
    var q := PartsOf(st, r, p, next);
    SectionsLawful(s, t, st, r, p, next);
    PlanKinds(st, r, p, next);
    RestLawful(t, q, PlanDevice(st, r, next).0.id);
    RestWritten(t.subnets, Opens(t, r), q);
    ExecLawful(t, Rest(q));
    StoppedByName(t, Opens(t, r), Rest(q));
  }

  /** A device section and what follows it. */
  lemma Sequenced(s: Store, device: seq<Op>, rest: seq<Op>, dev: Id, clash: bool, later: bool)
    requires DeviceSection(s, device, dev, clash)
    requires forall t :: AfterDevice(s, t, dev) ==> Ends(Exec(t, rest), later)
    ensures Ends(Exec(s, device + rest), clash || later)
  {
    if device == [] {
      assert device + rest == rest;
    } else {
      assert (device + rest)[0] == device[0] && (device + rest)[1..] == rest;
    }
  }

  lemma AllIsRest(q: Parts)
    ensures All(q) == q.device + Rest(q)
  {}

  /** A report is refused, with a conflict, if and only if one of the two names is taken twice. */
  lemma RefusedExactly(s: Store, st: State, r: Report, p: Params, next: Id)
    requires WellFormed(s) && Unused(s, next) && Normalized(r) && Loads(s, r, st)
    ensures Ends(Exec(s, Build(st, r, p, next).ops),
                 NameClash(s.devices, Match(st, r), PlanDevice(st, r, next).0.id, r) || SubnetClash(s, r))
  {
    var q, dev := PartsOf(st, r, p, next), PlanDevice(st, r, next).0.id;
    BuildIsAll(st, r, p, next);
    AllIsRest(q);
    DevicePasses(s, st, r, next);
    forall t | AfterDevice(s, t, dev) ensures Ends(Exec(t, Rest(q)), SubnetClash(s, r)) {
      RestRefused(s, t, st, r, p, next);
    }
    Sequenced(s, q.device, Rest(q), dev, NameClash(s.devices, Match(st, r), dev, r), SubnetClash(s, r));
  }

  /** For any report two stored devices are enough: one with its name, one with its fallback name. */
  lemma AnyReportCanClash(r: Report, d: Device)
    ensures var devices := map[1 := d.(id := 1, cols := d.cols.(name := BaseName(r))),
                               2 := d.(id := 2, cols := d.cols.(name := CollisionName(BaseName(r), r.host)))];
            NameClash(devices, None, 3, r)
  {
    var devices := map[1 := d.(id := 1, cols := d.cols.(name := BaseName(r))),
                       2 := d.(id := 2, cols := d.cols.(name := CollisionName(BaseName(r), r.host)))];
    assert devices[1].cols.name == BaseName(r) && devices[2].cols.name == CollisionName(BaseName(r), r.host);
  }

  // ---- stores whose device names are unique

  ghost predicate UniqueNames(devices: map<Id, Device>) {
    forall i, j :: i in devices && j in devices && devices[i].cols.name == devices[j].cols.name ==> i == j
  }

  lemma WriteUniqueNames(s: Store, op: Op)
    requires UniqueNames(s.devices) && Perform(s, op).Ok?
    ensures UniqueNames(Perform(s, op).value.devices)
  {
    if op.CreateDevice? || op.UpdateDevice? {
      assert forall i :: i in s.devices && i != op.device.id ==> s.devices[i].cols.name != op.device.cols.name;
    }
  }

  /** Every list of writes keeps device names unique. */
  lemma {:induction false} ExecUniqueNames(s: Store, ops: seq<Op>)
    requires UniqueNames(s.devices) && Exec(s, ops).Ok?
    ensures UniqueNames(Exec(s, ops).value.devices)
    decreases |ops|
  {
    if ops != [] {
      WriteUniqueNames(s, ops[0]);
      ExecUniqueNames(Perform(s, ops[0]).value, ops[1..]);
    }
  }

  /** In such a store a taken fallback name is all it takes: the device cannot already have it. */
  lemma ClashWhenUnique(s: Store, st: State, r: Report, next: Id)
    requires WellFormed(s) && UniqueNames(s.devices) && LoadsCandidates(s, r, st)
    ensures var self := PlanDevice(st, r, next).0.id;
            NameClash(s.devices, Match(st, r), self, r) <==>
              NameInUse(s.devices, self, BaseName(r))
                && NameTaken(s.devices, self, CollisionName(BaseName(r), r.host))
  {
    if Match(st, r).Some? { MatchIsStored(s, r, st); }
  }
}
