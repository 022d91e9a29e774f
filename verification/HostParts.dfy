/** A plan's writes section by section: which tables each section touches. */
module HostParts {
  import opened Wrappers
  import opened HostStore
  import opened HostReport
  import opened HostPlan
  import opened HostTables
  import HostIfaces
  import HostSections
  import HostGuestRows

  /** The sections of a plan, in order. */
  datatype Parts = Parts(device: seq<Op>, ifaces: seq<Op>, addrs: seq<Op>, packages: seq<Op>, hardware: seq<Op>,
                         guests: seq<Op>, self: seq<Op>)

  function All(q: Parts): seq<Op> {
    q.device + q.ifaces + q.addrs + q.packages + q.hardware + q.guests + q.self
  }

  function PartsOf(st: State, r: Report, p: Params, next: Id): Parts {
    var (dev, a0) := PlanDevice(st, r, next);
    var a1 := PlanIfaces(a0.next, st, r, dev.id);
    var a2 := PlanAddrs(a1.next, st, r, p, dev.id);
    var a3 := PlanPackages(a2.next, st, r, dev.id);
    Parts(a0.ops, a1.ops, a2.ops, a3.ops, PlanHardware(st, r, p, dev.id),
          PlanGuests(a3.next, st, r, p, dev.id).ops, PlanSelf(st, r, dev))
  }

  lemma BuildIsAll(st: State, r: Report, p: Params, next: Id)
    ensures Build(st, r, p, next).ops == All(PartsOf(st, r, p, next))
          && Build(st, r, p, next).device == PlanDevice(st, r, next).0.id
  {}

  predicate DeviceOps(ops: seq<Op>) {
    forall op :: op in ops ==> (op.CreateDevice? || op.UpdateDevice?) && op.audit != []
  }

  predicate IfaceOps(ops: seq<Op>) {
    forall op :: op in ops ==> IfaceOp(op)
  }

  predicate AddrOps(ops: seq<Op>) {
    forall op :: op in ops ==> AddrOp(op)
  }

  predicate PackageOps(ops: seq<Op>) {
    forall op :: op in ops ==> op.ReplacePackages? && op.audit != []
  }

  predicate HardwareOps(ops: seq<Op>) {
    forall op :: op in ops ==> op.ReplaceHardware?
  }

  predicate GuestOps(ops: seq<Op>) {
    forall op :: op in ops ==> (op.SetHypervisor? || op.ReplaceGuests?) && op.audit != []
  }

  predicate SelfOps(ops: seq<Op>) {
    forall op :: op in ops ==> (op.SetHypervisor? || op.SetGuestDevice?) && op.audit != []
  }

  /** What each section writes; every write but a hardware refresh is audited. */
  predicate Kinds(q: Parts) {
    && DeviceOps(q.device) && IfaceOps(q.ifaces) && AddrOps(q.addrs) && PackageOps(q.packages)
    && HardwareOps(q.hardware) && GuestOps(q.guests) && SelfOps(q.self)
  }

  predicate IfaceOp(op: Op) {
    (op.CreateIface? || op.UpdateIface?) && op.audit != []
  }

  lemma {:induction false} WantedKinds(next: Id, rows: seq<Iface>, dev: Id, ws: seq<Wanted>, n: nat)
    requires n <= |ws|
    ensures forall op :: op in PlanWanted(next, rows, dev, ws, n).ops ==> IfaceOp(op)
  {
    if n > 0 { WantedKinds(next, rows, dev, ws, n - 1); }
  }

  lemma {:induction false} LostKinds(acc: Acc, rows: seq<Iface>, ws: seq<Wanted>, noBmc: bool, n: nat)
    requires n <= |rows| && forall op :: op in acc.ops ==> IfaceOp(op)
    ensures forall op :: op in PlanLost(acc, rows, ws, noBmc, n).ops ==> IfaceOp(op)
    ensures PlanLost(acc, rows, ws, noBmc, n).next == acc.next
  {
    if n > 0 { LostKinds(acc, rows, ws, noBmc, n - 1); }
  }

  predicate AddrOp(op: Op) {
    (op.CreateSubnet? || op.CreateAddr? || op.UpdateAddr?) && op.audit != []
  }

  lemma AddrStepKinds(acc: AddrAcc, rows: seq<AddrRow>, dev: Id, c: Claim, r: Report, p: Params)
    requires forall op :: op in acc.ops ==> AddrOp(op)
    ensures forall op :: op in AddrStep(acc, rows, dev, c, r, p).ops ==> AddrOp(op)
    ensures acc.next <= AddrStep(acc, rows, dev, c, r, p).next
  {}

  lemma {:induction false} ClaimKinds(acc: AddrAcc, rows: seq<AddrRow>, dev: Id, cs: seq<Claim>, r: Report, p: Params,
                                      n: nat)
    requires n <= |cs| && forall op :: op in acc.ops ==> AddrOp(op)
    ensures forall op :: op in PlanClaims(acc, rows, dev, cs, r, p, n).ops ==> AddrOp(op)
    ensures acc.next <= PlanClaims(acc, rows, dev, cs, r, p, n).next
  {
    if n > 0 {
      ClaimKinds(acc, rows, dev, cs, r, p, n - 1);
      AddrStepKinds(PlanClaims(acc, rows, dev, cs, r, p, n - 1), rows, dev, cs[n - 1], r, p);
    }
  }

  lemma {:induction false} ReleaseKinds(acc: Acc, rows: seq<AddrRow>, dev: Id, seen: set<Text>, noBmc: bool, n: nat)
    requires n <= |rows| && forall op :: op in acc.ops ==> AddrOp(op)
    ensures forall op :: op in PlanReleases(acc, rows, dev, seen, noBmc, n).ops ==> AddrOp(op)
    ensures PlanReleases(acc, rows, dev, seen, noBmc, n).next == acc.next
  {
    if n > 0 { ReleaseKinds(acc, rows, dev, seen, noBmc, n - 1); }
  }

  lemma {:induction false} PendingGrows(next: Id, cur: seq<Package>, r: Report, n: nat)
    requires n <= |r.pending|
    ensures next <= PlanPending(next, cur, r, n).next
  {
    if n > 0 { PendingGrows(next, cur, r, n - 1); }
  }

  lemma {:induction false} SelfKinds(ops: seq<Op>, rows: seq<Guest>, dev: Id, macs: set<string>, n: nat)
    requires n <= |rows| && forall op :: op in ops ==> op.SetHypervisor? && op.audit != []
    ensures forall op :: op in PlanSelfRows(ops, rows, dev, macs, n) ==>
          (op.SetHypervisor? || op.SetGuestDevice?) && op.audit != []
  {
    if n > 0 { SelfKinds(ops, rows, dev, macs, n - 1); }
  }

  lemma IfacesPart(next: Id, st: State, r: Report, dev: Id)
    ensures IfaceOps(PlanIfaces(next, st, r, dev).ops)
    ensures next <= PlanIfaces(next, st, r, dev).next
  {
    var ws := WantedIfaces(r);
    WantedKinds(next, st.ifaces, dev, ws, |ws|);
    HostIfaces.NextGrows(next, st.ifaces, dev, ws, |ws|);
    LostKinds(PlanWanted(next, st.ifaces, dev, ws, |ws|), st.ifaces, ws, r.bmc.None?, |st.ifaces|);
  }

  lemma AddrsPart(next: Id, st: State, r: Report, p: Params, dev: Id)
    ensures AddrOps(PlanAddrs(next, st, r, p, dev).ops)
    ensures next <= PlanAddrs(next, st, r, p, dev).next
  {
    var cs := HostSections.AllClaims(r);
    ClaimKinds(StartAddrs(next, st), st.addrs, dev, cs, r, p, |cs|);
    var a := PlanClaims(StartAddrs(next, st), st.addrs, dev, cs, r, p, |cs|);
    ReleaseKinds(Acc(a.next, a.ops), st.addrs, dev, a.seen, r.bmc.None?, |st.addrs|);
  }

  lemma GuestsPart(next: Id, st: State, r: Report, p: Params, dev: Id)
    ensures GuestOps(PlanGuests(next, st, r, p, dev).ops)
  {
    var a := PlanGuestRows(next, st, dev, r, p, |r.guests|);
    HostGuestRows.GuestOpsSkip(st, next, dev, r, p, |r.guests|);
    HostGuestRows.UnlinkOpsSkip(Acc(a.next, a.ops), st.guestDevices, a.linked, |st.guestDevices|);
  }

  lemma SelfPart(st: State, r: Report, dev: Device)
    ensures SelfOps(PlanSelf(st, r, dev))
  {
    var macs := Macs(WantedIfaces(r));
    var hosts := Hosts(st.guestRows, dev.id, macs);
    if |hosts| == 1 {
      var ops := if dev.hypervisor != TheOne(hosts)
        then [SetHypervisor(dev.id, TheOne(hosts), [Audit(HypervisorLinked, dev.id)])] else [];
      SelfKinds(ops, st.guestRows, dev.id, macs, |st.guestRows|);
    }
  }

  lemma OtherParts(st: State, r: Report, p: Params, next: Id, dev: Id)
    ensures DeviceOps(PlanDevice(st, r, next).1.ops) && PackageOps(PlanPackages(next, st, r, dev).ops)
          && HardwareOps(PlanHardware(st, r, p, dev))
  {}

  /** Each section writes its own tables only. */
  lemma PlanKinds(st: State, r: Report, p: Params, next: Id)
    ensures Kinds(PartsOf(st, r, p, next))
  {
    var dev, a0 := PlanDevice(st, r, next).0, PlanDevice(st, r, next).1;
    var a1 := PlanIfaces(a0.next, st, r, dev.id);
    var a2 := PlanAddrs(a1.next, st, r, p, dev.id);
    OtherParts(st, r, p, next, dev.id);
    IfacesPart(a0.next, st, r, dev.id);
    AddrsPart(a1.next, st, r, p, dev.id);
    OtherParts(st, r, p, a2.next, dev.id);
    GuestsPart(PlanPackages(a2.next, st, r, dev.id).next, st, r, p, dev.id);
    SelfPart(st, r, dev);
  }

  // ---- projections

  ghost predicate Skips<T(!new)>(f: (T, Op) -> T, ops: seq<Op>) {
    forall op, t :: op in ops ==> f(t, op) == t
  }

  lemma SkipAfter<T(!new)>(f: (T, Op) -> T, m: T, a: seq<Op>, b: seq<Op>)
    requires Skips(f, b)
    ensures Fold(f, m, a + b) == Fold(f, m, a)
  {
    FoldSplit(f, m, a, b);
    FoldSkip(f, Fold(f, m, a), b);
  }

  lemma SkipBefore<T(!new)>(f: (T, Op) -> T, m: T, a: seq<Op>, b: seq<Op>)
    requires Skips(f, a)
    ensures Fold(f, m, a + b) == Fold(f, m, b)
  {
    FoldSplit(f, m, a, b);
    FoldSkip(f, m, a);
  }

  lemma IfacesOnly(q: Parts, m: map<Id, Iface>)
    requires Kinds(q)
    ensures Fold(WriteIfaces, m, All(q)) == Fold(WriteIfaces, m, q.ifaces)
  {
    var f := WriteIfaces;
    SkipAfter(f, m, q.device + q.ifaces + q.addrs + q.packages + q.hardware + q.guests, q.self);
    SkipAfter(f, m, q.device + q.ifaces + q.addrs + q.packages + q.hardware, q.guests);
    SkipAfter(f, m, q.device + q.ifaces + q.addrs + q.packages, q.hardware);
    SkipAfter(f, m, q.device + q.ifaces + q.addrs, q.packages);
    SkipAfter(f, m, q.device + q.ifaces, q.addrs);
    SkipBefore(f, m, q.device, q.ifaces);
  }

  lemma AddrsOnly(q: Parts, m: map<Id, AddrRow>, clock: Time)
    requires Kinds(q)
    ensures Fold(WriteAddrs(clock), m, All(q)) == Fold(WriteAddrs(clock), m, q.addrs)
  {
    var f := WriteAddrs(clock);
    SkipAfter(f, m, q.device + q.ifaces + q.addrs + q.packages + q.hardware + q.guests, q.self);
    SkipAfter(f, m, q.device + q.ifaces + q.addrs + q.packages + q.hardware, q.guests);
    SkipAfter(f, m, q.device + q.ifaces + q.addrs + q.packages, q.hardware);
    SkipAfter(f, m, q.device + q.ifaces + q.addrs, q.packages);
    SkipBefore(f, m, q.device + q.ifaces, q.addrs);
  }

  lemma PackagesOnly(q: Parts, m: map<Id, seq<Package>>)
    requires Kinds(q)
    ensures Fold(WritePackages, m, All(q)) == Fold(WritePackages, m, q.packages)
  {
    var f := WritePackages;
    SkipAfter(f, m, q.device + q.ifaces + q.addrs + q.packages + q.hardware + q.guests, q.self);
    SkipAfter(f, m, q.device + q.ifaces + q.addrs + q.packages + q.hardware, q.guests);
    SkipAfter(f, m, q.device + q.ifaces + q.addrs + q.packages, q.hardware);
    SkipBefore(f, m, q.device + q.ifaces + q.addrs, q.packages);
  }

  lemma HardwareOnly(q: Parts, m: map<Id, Hardware>)
    requires Kinds(q)
    ensures Fold(WriteHardware, m, All(q)) == Fold(WriteHardware, m, q.hardware)
  {
    var f := WriteHardware;
    SkipAfter(f, m, q.device + q.ifaces + q.addrs + q.packages + q.hardware + q.guests, q.self);
    SkipAfter(f, m, q.device + q.ifaces + q.addrs + q.packages + q.hardware, q.guests);
    SkipBefore(f, m, q.device + q.ifaces + q.addrs + q.packages, q.hardware);
  }

  lemma GuestsOnly(q: Parts, m: map<Id, Guest>)
    requires Kinds(q)
    ensures Fold(WriteGuests, m, All(q)) == Fold(WriteGuests, Fold(WriteGuests, m, q.guests), q.self)
  {
    var f := WriteGuests;
    FoldSplit(f, m, q.device + q.ifaces + q.addrs + q.packages + q.hardware + q.guests, q.self);
    SkipBefore(f, m, q.device + q.ifaces + q.addrs + q.packages + q.hardware, q.guests);
  }

  lemma DevicesOnly(q: Parts, m: map<Id, Device>)
    requires Kinds(q)
    ensures Fold(WriteDevices, m, All(q)) == Fold(WriteDevices,
          Fold(WriteDevices, Fold(WriteDevices, m, q.device), q.guests), q.self)
  {
    var f := WriteDevices;
    var rest := q.device + q.ifaces + q.addrs + q.packages + q.hardware;
    FoldSplit(f, m, rest + q.guests, q.self);
    FoldSplit(f, m, rest, q.guests);
    SkipAfter(f, m, q.device + q.ifaces + q.addrs + q.packages, q.hardware);
    SkipAfter(f, m, q.device + q.ifaces + q.addrs, q.packages);
    SkipAfter(f, m, q.device + q.ifaces, q.addrs);
    SkipAfter(f, m, q.device, q.ifaces);
  }

  /** Row ids handed out only grow from section to section. */
  lemma NextOrder(st: State, r: Report, p: Params, next: Id)
    ensures var (dev, a0) := PlanDevice(st, r, next);
            var a1 := PlanIfaces(a0.next, st, r, dev.id);
            var a2 := PlanAddrs(a1.next, st, r, p, dev.id);
            next <= a0.next <= a1.next <= a2.next <= PlanPackages(a2.next, st, r, dev.id).next
  {
    var (dev, a0) := PlanDevice(st, r, next);
    var a1 := PlanIfaces(a0.next, st, r, dev.id);
    IfacesPart(a0.next, st, r, dev.id);
    AddrsPart(a1.next, st, r, p, dev.id);
    PendingGrows(PlanAddrs(a1.next, st, r, p, dev.id).next, st.packages, r, |r.pending|);
  }
}
