/** What applying a host report promises. */
module HostSyncResults {
  import opened Wrappers
  import opened HostStore
  import opened HostReport
  import opened HostPlan
  import opened HostLoad
  import opened HostTables
  import opened HostAddrs
  import opened HostSections
  import opened HostSelf
  import opened HostParts
  import opened HostSync

  // ---- idempotence

  ghost predicate SubnetsKeyed(m: map<Id, Subnet>) {
    forall i :: i in m ==> m[i].id == i
  }

  lemma {:induction false} FoldSubnetIds(m: map<Id, Subnet>, ops: seq<Op>)
    requires SubnetsKeyed(m)
    ensures SubnetsKeyed(Fold(WriteSubnets, m, ops))
    decreases |ops|
  {
    if ops != [] {
      FoldSubnetIds(WriteSubnets(m, ops[0]), ops[1..]);
    }
  }

  lemma KeysFrom(t: Store)
    requires RowIds(t) && SubnetsKeyed(t.subnets)
    ensures KeysAreIds(t)
  {}

  lemma SubnetIds(s: Store, ops: seq<Op>)
    requires KeysAreIds(s) && Exec(s, ops).Ok?
    ensures SubnetsKeyed(Exec(s, ops).value.subnets)
  {
    ExecTables(s, ops);
    FoldSubnetIds(s.subnets, ops);
  }

  /** The applied store's rows sit under their own ids. */
  lemma AppliedKeys(s: Store, st: State, r: Report, p: Params, next: Id)
    requires Applies(s, st, r, p, next) && RowIds(Applied(s, st, r, p, next))
    ensures KeysAreIds(Applied(s, st, r, p, next))
  {
    SubnetIds(s, Build(st, r, p, next).ops);
    KeysFrom(Applied(s, st, r, p, next));
  }

  /**
   Applying a report, then loading and planning the same report again at the same time, plans
   no write at all, whatever order the rows are listed in.
   */
  lemma Idempotent(s: Store, st: State, r: Report, p: Params, next: Id, st': State, next': Id)
    requires Applies(s, st, r, p, next)
    ensures IfacesOwned(Applied(s, st, r, p, next))
    ensures Loads(Applied(s, st, r, p, next), r, st') ==>
              Build(st', r, p, next').ops == [] && Build(st', r, p, next').device == Target(st, r, next)
  {
    AppliedInSync(s, st, r, p, next);
    AppliedKeys(s, st, r, p, next);
    if Loads(Applied(s, st, r, p, next), r, st') {
      InSyncPlansNothing(Applied(s, st, r, p, next), st', r, p, next', Target(st, r, next));
    }
  }

  lemma AppliedTablesAll(s: Store, st: State, r: Report, p: Params, next: Id)
    requires Applies(s, st, r, p, next)
    ensures Tables(s, Applied(s, st, r, p, next), Build(st, r, p, next).ops)
  {
    ExecTables(s, Build(st, r, p, next).ops);
  }

  // ---- the reported end state

  /** The device the report is about. */
  function Target(st: State, r: Report, next: Id): Id {
    PlanDevice(st, r, next).0.id
  }

  /** A recorded address has exactly one row, bound to the device, its interface and its MAC, in state reported. */
  lemma ReportedHasOneRow(s: Store, st: State, r: Report, p: Params, next: Id, c: Claim) returns (i: Id)
    requires Applies(s, st, r, p, next) && c in AllClaims(r) && Recorded(c)
    ensures var t, dev := Applied(s, st, r, p, next).addrs, Target(st, r, next);
            && i in t && t[i].text == Key(c) && t[i].cols.device == dev && t[i].cols.state == Reported
            && (exists d :: d in AllClaims(r) && Recorded(d) && Key(d) == Key(c) && BoundTo(t[i], dev, d, r))
            && (forall j :: j in t && t[j].text == Key(c) ==> j == i)
  {
    AppliedAddrs(s, st, r, p, next);
    var t, dev, cs := Applied(s, st, r, p, next).addrs, Target(st, r, next), AllClaims(r);
    i :| i in t && t[i].text == Key(c);
    var k :| 0 <= k < |cs| && cs[k] == c;
    DecidedIfClaimed(cs, |cs|, k);
    assert AddrOk(t[i], dev, cs, r, p);
    assert BoundTo(t[i], dev, Decides(cs, |cs|, Key(c)).value, r);
  }

  /** Nothing else is left reported on the device, except BMC addresses when the BMC said nothing. */
  lemma OnlyReportedIsBound(s: Store, st: State, r: Report, p: Params, next: Id, i: Id)
    requires Applies(s, st, r, p, next)
    requires var t := Applied(s, st, r, p, next).addrs;
             i in t && t[i].cols.device == Target(st, r, next) && t[i].cols.state == Reported
    ensures var a := Applied(s, st, r, p, next).addrs[i];
            || (exists c :: c in AllClaims(r) && Recorded(c) && Key(c) == a.text)
            || (r.bmc.None? && IsBMCName(a.cols.iface))
  {
    AppliedAddrs(s, st, r, p, next);
    var t, cs := Applied(s, st, r, p, next).addrs, AllClaims(r);
    assert AddrOk(t[i], Target(st, r, next), cs, r, p);
    var f := Decides(cs, |cs|, t[i].text);
    assert f.Some? ==> f.value in cs && Recorded(f.value) && Key(f.value) == t[i].text;
  }

  /** Another device's row changes only when its address was reported. */
  lemma OthersKept(s: Store, st: State, r: Report, p: Params, next: Id, i: Id)
    requires Applies(s, st, r, p, next) && i in s.addrs && s.addrs[i].cols.device != Target(st, r, next)
    requires forall c :: c in AllClaims(r) && Recorded(c) ==> Key(c) != s.addrs[i].text
    ensures i in Applied(s, st, r, p, next).addrs && Applied(s, st, r, p, next).addrs[i] == s.addrs[i]
  {
    AppliedAddrs(s, st, r, p, next);
    assert Decides(AllClaims(r), |AllClaims(r)|, s.addrs[i].text).None?;
  }

  // ---- frame and audit

  lemma {:induction false} FoldKeepsSubnets(m: map<Id, Subnet>, ops: seq<Op>, next: Id)
    requires forall op :: op in ops && op.CreateSubnet? ==> op.subnet.id >= next
    ensures var t := Fold(WriteSubnets, m, ops); forall i :: i in m && i < next ==> i in t && t[i] == m[i]
    decreases |ops|
  {
    if ops != [] {
      assert ops[0] in ops && forall op :: op in ops[1..] ==> op in ops;
      FoldKeepsSubnets(WriteSubnets(m, ops[0]), ops[1..], next);
      assert Fold(WriteSubnets, m, ops) == Fold(WriteSubnets, WriteSubnets(m, ops[0]), ops[1..]);
    }
  }

  lemma AddrStepIds(acc: AddrAcc, rows: seq<AddrRow>, dev: Id, c: Claim, r: Report, p: Params, next: Id)
    requires next <= acc.next && forall op :: op in acc.ops && op.CreateSubnet? ==> op.subnet.id >= next
    ensures var b := AddrStep(acc, rows, dev, c, r, p);
            next <= b.next && forall op :: op in b.ops && op.CreateSubnet? ==> op.subnet.id >= next
  {}

  lemma {:induction false} ClaimIds(acc: AddrAcc, rows: seq<AddrRow>, dev: Id, cs: seq<Claim>, r: Report, p: Params,
                                    n: nat, next: Id)
    requires n <= |cs| && next <= acc.next && forall op :: op in acc.ops && op.CreateSubnet? ==> op.subnet.id >= next
    ensures var b := PlanClaims(acc, rows, dev, cs, r, p, n);
            next <= b.next && forall op :: op in b.ops && op.CreateSubnet? ==> op.subnet.id >= next
  {
    if n > 0 {
      ClaimIds(acc, rows, dev, cs, r, p, n - 1, next);
      AddrStepIds(PlanClaims(acc, rows, dev, cs, r, p, n - 1), rows, dev, cs[n - 1], r, p, next);
    }
  }

  lemma {:induction false} ReleaseIds(acc: Acc, rows: seq<AddrRow>, dev: Id, seen: set<Text>, noBmc: bool, n: nat,
                                      next: Id)
    requires n <= |rows| && forall op :: op in acc.ops && op.CreateSubnet? ==> op.subnet.id >= next
    ensures forall op :: op in PlanReleases(acc, rows, dev, seen, noBmc, n).ops && op.CreateSubnet? ==>
          op.subnet.id >= next
  {
    if n > 0 { ReleaseIds(acc, rows, dev, seen, noBmc, n - 1, next); }
  }

  lemma AddrsPartIds(a1: Id, st: State, r: Report, p: Params, dev: Id, next: Id)
    requires next <= a1
    ensures forall op :: op in PlanAddrs(a1, st, r, p, dev).ops && op.CreateSubnet? ==> op.subnet.id >= next
  {
    var cs := AllClaims(r);
    ClaimIds(StartAddrs(a1, st), st.addrs, dev, cs, r, p, |cs|, next);
    var a := PlanClaims(StartAddrs(a1, st), st.addrs, dev, cs, r, p, |cs|);
    ReleaseIds(Acc(a.next, a.ops), st.addrs, dev, a.seen, r.bmc.None?, |st.addrs|, next);
  }

  lemma OnlyAddrsCreateSubnets(q: Parts, op: Op)
    requires Kinds(q) && op in All(q) && op.CreateSubnet?
    ensures op in q.addrs
  {}

  lemma SubnetsKept(s: Store, st: State, r: Report, p: Params, next: Id)
    requires Applies(s, st, r, p, next)
    ensures var t := Applied(s, st, r, p, next).subnets; forall i :: i in s.subnets ==> i in t && t[i] == s.subnets[i]
  {
    var ops := Build(st, r, p, next).ops;
    AppliedTablesAll(s, st, r, p, next);
    forall op | op in ops && op.CreateSubnet? ensures op.subnet.id >= next { PlanSubnetIds(st, r, p, next, op); }
    FoldKeepsSubnets(s.subnets, ops, next);
  }

  lemma PlanSubnetIds(st: State, r: Report, p: Params, next: Id, op: Op)
    requires op in Build(st, r, p, next).ops && op.CreateSubnet?
    ensures op.subnet.id >= next
  {
    var q, dev := PartsOf(st, r, p, next), Target(st, r, next);
    BuildIsAll(st, r, p, next);
    PlanKinds(st, r, p, next);
    OnlyAddrsCreateSubnets(q, op);
    NextOrder(st, r, p, next);
    AddrsPartIds(PlanIfaces(PlanDevice(st, r, next).1.next, st, r, dev).next, st, r, p, dev, next);
  }

  /** Administrator fields of every row that existed keep their values. */
  lemma AdminUntouched(s: Store, st: State, r: Report, p: Params, next: Id)
    requires Applies(s, st, r, p, next)
    ensures AdminKept(s, Applied(s, st, r, p, next))
  {
    AppliedIfaces(s, st, r, p, next);
    AppliedAddrs(s, st, r, p, next);
    SubnetsKept(s, st, r, p, next);
    DevicesKept(s, st, r, p, next);
  }

  lemma DevicesKept(s: Store, st: State, r: Report, p: Params, next: Id)
    requires Applies(s, st, r, p, next)
    ensures var t := Applied(s, st, r, p, next).devices;
            forall i :: i in s.devices ==> i in t && t[i].id == s.devices[i].id && t[i].admin == s.devices[i].admin
  {
    var (dev, a0) := PlanDevice(st, r, next);
    var a3 := PlanPackages(PlanAddrs(PlanIfaces(a0.next, st, r, dev.id).next, st, r, p, dev.id).next, st, r, dev.id);
    AppliedTables(s, st, r, p, next);
    NextOrder(st, r, p, next);
    DeviceTable(s, st, r, next);
    AfterSelf(s, st, r, p, next, a3.next);
  }

  /** The log grows by exactly the writes' rows, in order; only a free-bytes refresh is silent. */
  lemma Audited(s: Store, st: State, r: Report, p: Params, next: Id)
    requires Applies(s, st, r, p, next)
    ensures Applied(s, st, r, p, next).audit == s.audit + AuditOf(Build(st, r, p, next).ops)
    ensures forall op :: op in Build(st, r, p, next).ops && op.audit == [] ==>
              op.ReplaceHardware? && st.hardware.Some? && st.hardware.value.digest == op.hardware.digest
  {
    ExecAudit(s, Build(st, r, p, next).ops);
    BuildIsAll(st, r, p, next);
    PlanKinds(st, r, p, next);
    SilentPart(PartsOf(st, r, p, next), st);
    SilentHardware(st, r, p, Target(st, r, next));
  }

  lemma SilentPart(q: Parts, st: State)
    requires Kinds(q)
    ensures forall op :: op in All(q) && op.audit == [] ==> op in q.hardware
  {}

  lemma SilentHardware(st: State, r: Report, p: Params, dev: Id)
    ensures forall op :: op in PlanHardware(st, r, p, dev) && op.audit == [] ==>
              op.ReplaceHardware? && st.hardware.Some? && st.hardware.value.digest == op.hardware.digest
  {}

  // ---- the store stays well-formed

  lemma PerformUniqueIfaces(s: Store, op: Op)
    requires UniqueIfaces(s.ifaces) && Perform(s, op).Ok?
    ensures UniqueIfaces(Perform(s, op).value.ifaces)
  {
    PerformTables(s, op);
    if op.CreateIface? {
      assert forall i :: i in s.ifaces ==> s.ifaces[i].device != op.iface.device || s.ifaces[i].name != op.iface.name;
    }
  }

  lemma {:induction false} ExecUniqueIfaces(s: Store, ops: seq<Op>)
    requires UniqueIfaces(s.ifaces) && Exec(s, ops).Ok?
    ensures UniqueIfaces(Exec(s, ops).value.ifaces)
    decreases |ops|
  {
    if ops != [] {
      PerformUniqueIfaces(s, ops[0]);
      ExecUniqueIfaces(Perform(s, ops[0]).value, ops[1..]);
    }
  }

  lemma HostsStayUnique(d: map<Id, Device>, t: map<Id, Device>, dev: Id, r: Report)
    requires UniqueHosts(d) && Normalized(r) && DeviceSettled(t, dev, r)
    requires forall i :: i in t && i != dev ==> i in d && d[i].cols == t[i].cols
    ensures UniqueHosts(t)
  {
    forall i, j | i in t && j in t && LinkedTo(t[i], t[j].cols.inventory) ensures i == j {
      assert |Lower(t[j].cols.inventory)| == |t[j].cols.inventory|;
      assert i == dev ==> LinkedTo(t[j], r.host);
      assert i != dev && j != dev ==> LinkedTo(d[i], d[j].cols.inventory);
    }
  }

  lemma OtherColsKept(s: Store, st: State, r: Report, p: Params, next: Id)
    requires Applies(s, st, r, p, next)
    ensures var t := Applied(s, st, r, p, next).devices;
            forall i :: i in t && i != Target(st, r, next) ==> i in s.devices && s.devices[i].cols == t[i].cols
  {
    var (dev, a0) := PlanDevice(st, r, next);
    var a3 := PlanPackages(PlanAddrs(PlanIfaces(a0.next, st, r, dev.id).next, st, r, p, dev.id).next, st, r, dev.id);
    AppliedTables(s, st, r, p, next);
    NextOrder(st, r, p, next);
    DeviceTable(s, st, r, next);
    AfterSelf(s, st, r, p, next, a3.next);
  }

  /** Applying a report keeps the store well-formed. */
  lemma AppliedWellFormed(s: Store, st: State, r: Report, p: Params, next: Id)
    requires Applies(s, st, r, p, next)
    ensures WellFormed(Applied(s, st, r, p, next))
  {
    var t := Applied(s, st, r, p, next);
    AppliedInSync(s, st, r, p, next);
    AppliedKeys(s, st, r, p, next);
    ExecUniqueIfaces(s, Build(st, r, p, next).ops);
    OtherColsKept(s, st, r, p, next);
    HostsStayUnique(s.devices, t.devices, Target(st, r, next), r);
    AppliedAddrs(s, st, r, p, next);
  }
}
