/** Ids along a plan: what it brings into the store is below the next unused id, so reports can follow each other. */
module HostIds {
  import opened Wrappers
  import opened HostStore
  import opened HostReport
  import opened HostPlan
  import opened HostLoad
  import opened HostParts
  import opened HostSections

  /** Every id the write brings into the store is below `n`. */
  predicate Below(op: Op, n: Id) {
    match op
    case CreateDevice(d, _) => d.id < n && d.hypervisor < n
    case UpdateDevice(_, _) => true
    case CreateIface(i, _) => i.id < n && i.device < n
    case UpdateIface(_, _) => true
    case CreateSubnet(u, _) => u.id < n
    case CreateAddr(a, _) => a.id < n && a.cols.device < n
    case UpdateAddr(a, _) => a.cols.device < n
    case ReplacePackages(t, _, _) => t < n
    case ReplaceGuests(t, gs, _) => t < n && forall g :: g in gs ==> g.id < n
    case SetHypervisor(_, ref, _) => ref < n
    case SetGuestDevice(_, _, _) => true
    case ReplaceHardware(h, _) => h.device < n
  }

  ghost predicate AllBelow(ops: seq<Op>, n: Id) {
    forall op :: op in ops ==> Below(op, n)
  }

  lemma BelowMore(ops: seq<Op>, n: Id, m: Id)
    requires AllBelow(ops, n) && n <= m
    ensures AllBelow(ops, m)
  {
    forall op | op in ops ensures Below(op, m) { assert Below(op, n); }
  }

  // ---- running the writes

  ghost predicate GuestTable(m: map<Id, Guest>, n: Id) {
    forall i :: i in m ==> i < n && m[i].host < n
  }

  lemma {:induction false} PutBelow(base: map<Id, Guest>, host: Id, rows: seq<Guest>, k: nat, n: Id)
    requires k <= |rows| && host < n && (forall g :: g in rows ==> g.id < n) && GuestTable(base, n)
    ensures GuestTable(PutGuests(base, host, rows, k), n)
  {
    if k > 0 {
      PutBelow(base, host, rows, k - 1, n);
      PutOneBelow(PutGuests(base, host, rows, k - 1), rows[k - 1].(host := host), n);
    }
  }

  lemma PutOneBelow(m: map<Id, Guest>, g: Guest, n: Id)
    requires GuestTable(m, n) && g.id < n && g.host < n
    ensures GuestTable(m[g.id := g], n)
  {}

  lemma ReplaceUnused(s: Store, op: Op, n: Id)
    requires Unused(s, n) && Below(op, n) && op.ReplaceGuests?
    ensures Unused(Perform(s, op).value, n)
  {
    PutBelow(WithoutHost(s.guests, op.target), op.target, op.guests, |op.guests|, n);
  }

  lemma DeviceUnused(s: Store, op: Op, n: Id)
    requires Unused(s, n) && Below(op, n) && (op.CreateDevice? || op.UpdateDevice? || op.SetHypervisor?)
          && Perform(s, op).Ok?
    ensures Unused(Perform(s, op).value, n)
  {}

  lemma AddrUnused(s: Store, op: Op, n: Id)
    requires Unused(s, n) && Below(op, n) && (op.CreateAddr? || op.UpdateAddr? || op.CreateSubnet?)
          && Perform(s, op).Ok?
    ensures Unused(Perform(s, op).value, n)
  {}

  lemma IfaceUnused(s: Store, op: Op, n: Id)
    requires Unused(s, n) && Below(op, n) && (op.CreateIface? || op.UpdateIface? || op.SetGuestDevice?)
          && Perform(s, op).Ok?
    ensures Unused(Perform(s, op).value, n)
  {}

  lemma PerformUnused(s: Store, op: Op, n: Id)
    requires Unused(s, n) && Below(op, n) && Perform(s, op).Ok?
    ensures Unused(Perform(s, op).value, n)
  {
    match op
    case ReplaceGuests(_, _, _) => ReplaceUnused(s, op, n);
    case CreateDevice(_, _) => DeviceUnused(s, op, n);
    case UpdateDevice(_, _) => DeviceUnused(s, op, n);
    case SetHypervisor(_, _, _) => DeviceUnused(s, op, n);
    case CreateAddr(_, _) => AddrUnused(s, op, n);
    case UpdateAddr(_, _) => AddrUnused(s, op, n);
    case CreateSubnet(_, _) => AddrUnused(s, op, n);
    case CreateIface(_, _) => IfaceUnused(s, op, n);
    case UpdateIface(_, _) => IfaceUnused(s, op, n);
    case SetGuestDevice(_, _, _) => IfaceUnused(s, op, n);
    case ReplacePackages(_, _, _) =>
    case ReplaceHardware(_, _) =>
  }

  lemma {:induction false} ExecUnused(s: Store, ops: seq<Op>, n: Id)
    requires Unused(s, n) && AllBelow(ops, n) && Exec(s, ops).Ok?
    ensures Unused(Exec(s, ops).value, n)
    decreases |ops|
  {
    if ops != [] {
      assert ops[0] in ops && forall op :: op in ops[1..] ==> op in ops;
      PerformUnused(s, ops[0], n);
      ExecUnused(Perform(s, ops[0]).value, ops[1..], n);
    }
  }

  // ---- the sections of a plan

  lemma {:induction false} WantedBelow(next: Id, rows: seq<Iface>, dev: Id, ws: seq<Wanted>, n: nat)
    requires n <= |ws| && dev < next
    ensures var a := PlanWanted(next, rows, dev, ws, n); next <= a.next && AllBelow(a.ops, a.next)
  {
    if n > 0 {
      WantedBelow(next, rows, dev, ws, n - 1);
      IfaceBelow(PlanWanted(next, rows, dev, ws, n - 1), rows, dev, ws[n - 1]);
    }
  }

  lemma IfaceBelow(acc: Acc, rows: seq<Iface>, dev: Id, w: Wanted)
    requires AllBelow(acc.ops, acc.next) && dev < acc.next
    ensures var a := IfaceStep(acc, rows, dev, w); acc.next <= a.next && AllBelow(a.ops, a.next)
  {
    BelowMore(acc.ops, acc.next, acc.next + 1);
  }

  lemma {:induction false} LostBelow(acc: Acc, rows: seq<Iface>, ws: seq<Wanted>, noBmc: bool, n: nat)
    requires n <= |rows| && AllBelow(acc.ops, acc.next)
    ensures var a := PlanLost(acc, rows, ws, noBmc, n); a.next == acc.next && AllBelow(a.ops, a.next)
  {
    if n > 0 { LostBelow(acc, rows, ws, noBmc, n - 1); }
  }

  lemma CreateBelow(acc: AddrAcc, dev: Id, c: Claim, r: Report)
    requires AllBelow(acc.ops, acc.next) && dev < acc.next && Recorded(c)
    ensures var a := CreateStep(acc, dev, c, r); acc.next <= a.next && AllBelow(a.ops, a.next)
  {
    BelowMore(acc.ops, acc.next, acc.next + 1);
    BelowMore(acc.ops, acc.next, acc.next + 2);
  }

  lemma AddrBelow(acc: AddrAcc, rows: seq<AddrRow>, dev: Id, c: Claim, r: Report, p: Params)
    requires AllBelow(acc.ops, acc.next) && dev < acc.next
    ensures var a := AddrStep(acc, rows, dev, c, r, p); acc.next <= a.next && AllBelow(a.ops, a.next)
  {
    if Recorded(c) && Key(c) !in acc.seen && FindAddr(rows, |rows|, Key(c)).None? {
      CreateBelow(acc.(seen := acc.seen + {Key(c)}), dev, c, r);
    }
  }

  lemma {:induction false} ClaimsBelow(acc: AddrAcc, rows: seq<AddrRow>, dev: Id, cs: seq<Claim>, r: Report,
                                       p: Params, n: nat)
    requires n <= |cs| && AllBelow(acc.ops, acc.next) && dev < acc.next
    ensures var a := PlanClaims(acc, rows, dev, cs, r, p, n); acc.next <= a.next && AllBelow(a.ops, a.next)
  {
    if n > 0 {
      ClaimsBelow(acc, rows, dev, cs, r, p, n - 1);
      AddrBelow(PlanClaims(acc, rows, dev, cs, r, p, n - 1), rows, dev, cs[n - 1], r, p);
    }
  }

  lemma {:induction false} ReleasesBelow(acc: Acc, rows: seq<AddrRow>, dev: Id, seen: set<Text>, noBmc: bool, n: nat)
    requires n <= |rows| && AllBelow(acc.ops, acc.next) && dev < acc.next
    ensures var a := PlanReleases(acc, rows, dev, seen, noBmc, n); a.next == acc.next && AllBelow(a.ops, a.next)
  {
    if n > 0 { ReleasesBelow(acc, rows, dev, seen, noBmc, n - 1); }
  }

  lemma AddrsBelow(next: Id, st: State, r: Report, p: Params, dev: Id)
    requires dev < next
    ensures var a := PlanAddrs(next, st, r, p, dev); next <= a.next && AllBelow(a.ops, a.next)
  {
    var cs := AllClaims(r);
    ClaimsBelow(StartAddrs(next, st), st.addrs, dev, cs, r, p, |cs|);
    var a := PlanClaims(StartAddrs(next, st), st.addrs, dev, cs, r, p, |cs|);
    ReleasesBelow(Acc(a.next, a.ops), st.addrs, dev, a.seen, r.bmc.None?, |st.addrs|);
  }

  ghost predicate GuestsBelow(a: GuestAcc) {
    AllBelow(a.ops, a.next) && forall g :: g in a.want ==> g.id < a.next
  }

  lemma GuestBelow(acc: GuestAcc, st: State, dev: Id, g: RGuest, p: Params)
    requires GuestsBelow(acc) && dev < acc.next && forall x :: x in st.guests ==> x.id < acc.next
    ensures var a := GuestStep(acc, st, dev, g, p); acc.next <= a.next && GuestsBelow(a)
  {
    var a := GuestStep(acc, st, dev, g, p);
    BelowMore(acc.ops, acc.next, a.next);
    assert st.guests[..|st.guests|] == st.guests;
  }

  lemma {:induction false} GuestRowsBelow(next: Id, st: State, dev: Id, r: Report, p: Params, n: nat)
    requires n <= |r.guests| && dev < next && forall x :: x in st.guests ==> x.id < next
    ensures var a := PlanGuestRows(next, st, dev, r, p, n); next <= a.next && GuestsBelow(a)
  {
    if n > 0 {
      GuestRowsBelow(next, st, dev, r, p, n - 1);
      GuestBelow(PlanGuestRows(next, st, dev, r, p, n - 1), st, dev, r.guests[n - 1], p);
    }
  }

  lemma {:induction false} UnlinksBelow(acc: Acc, ds: seq<Device>, linked: set<Id>, n: nat)
    requires n <= |ds| && AllBelow(acc.ops, acc.next) && acc.next > 0
    ensures var a := PlanUnlinks(acc, ds, linked, n); a.next == acc.next && AllBelow(a.ops, a.next)
  {
    if n > 0 { UnlinksBelow(acc, ds, linked, n - 1); }
  }

  lemma GuestSectionBelow(next: Id, st: State, r: Report, p: Params, dev: Id)
    requires dev < next && forall x :: x in st.guests ==> x.id < next
    ensures var a := PlanGuests(next, st, r, p, dev); next <= a.next && AllBelow(a.ops, a.next)
  {
    var a := PlanGuestRows(next, st, dev, r, p, |r.guests|);
    GuestRowsBelow(next, st, dev, r, p, |r.guests|);
    UnlinksBelow(Acc(a.next, a.ops), st.guestDevices, a.linked, |st.guestDevices|);
    StampedBelow(a.want, p.now, a.next);
  }

  lemma StampedBelow(gs: seq<Guest>, now: Time, n: Id)
    requires forall g :: g in gs ==> g.id < n
    ensures forall g :: g in Stamped(gs, now) ==> g.id < n
  {
    forall g | g in Stamped(gs, now) ensures g.id < n {
      var k :| 0 <= k < |gs| && Stamped(gs, now)[k] == g;
      assert gs[k] in gs;
    }
  }

  lemma {:induction false} SelfRowsBelow(ops: seq<Op>, rows: seq<Guest>, dev: Id, macs: set<string>, n: nat, m: Id)
    requires n <= |rows| && AllBelow(ops, m)
    ensures AllBelow(PlanSelfRows(ops, rows, dev, macs, n), m)
  {
    if n > 0 { SelfRowsBelow(ops, rows, dev, macs, n - 1, m); }
  }

  lemma SelfBelow(st: State, r: Report, dev: Device, m: Id)
    requires forall g :: g in st.guestRows ==> g.host < m
    ensures AllBelow(PlanSelf(st, r, dev), m)
  {
    var macs := Macs(WantedIfaces(r));
    var hosts := Hosts(st.guestRows, dev.id, macs);
    if |hosts| == 1 {
      var host := TheOne(hosts);
      var start := if dev.hypervisor != host then [SetHypervisor(dev.id, host, [Audit(HypervisorLinked, dev.id)])]
        else [];
      SelfRowsBelow(start, st.guestRows, dev.id, macs, |st.guestRows|, m);
    }
  }

  // ---- the whole plan

  /** What the planner relies on about loaded ids. */
  ghost predicate LoadedBelow(st: State, r: Report, next: Id) {
    && (forall g :: g in st.guests ==> g.id < next) && (forall g :: g in st.guestRows ==> g.host < next)
    && (Match(st, r).Some? ==> Match(st, r).value.id < next)
  }

  lemma LoadsBelow(s: Store, st: State, r: Report, next: Id)
    requires WellFormed(s) && Unused(s, next) && Loads(s, r, st)
    ensures LoadedBelow(st, r, next)
  {
    if Match(st, r).Some? { MatchIsStored(s, r, st); }
  }

  lemma DeviceBelow(st: State, r: Report, next: Id)
    requires LoadedBelow(st, r, next)
    ensures var (dev, a) := PlanDevice(st, r, next); next <= a.next && dev.id < a.next && AllBelow(a.ops, a.next)
  {}

  lemma IfacesBelow(next: Id, st: State, r: Report, dev: Id)
    requires dev < next
    ensures var a := PlanIfaces(next, st, r, dev); next <= a.next && AllBelow(a.ops, a.next)
  {
    var ws := WantedIfaces(r);
    WantedBelow(next, st.ifaces, dev, ws, |ws|);
    LostBelow(PlanWanted(next, st.ifaces, dev, ws, |ws|), st.ifaces, ws, r.bmc.None?, |st.ifaces|);
  }

  lemma PackagesBelow(next: Id, st: State, r: Report, dev: Id)
    requires dev < next
    ensures var a := PlanPackages(next, st, r, dev); next <= a.next && AllBelow(a.ops, a.next)
  {
    PendingGrows(next, st.packages, r, |r.pending|);
  }

  ghost predicate PartsBelow(q: Parts, n: Id) {
    && AllBelow(q.device, n) && AllBelow(q.ifaces, n) && AllBelow(q.addrs, n) && AllBelow(q.packages, n)
    && AllBelow(q.hardware, n) && AllBelow(q.guests, n) && AllBelow(q.self, n)
  }

  /** The next id after a plan. */
  function NextAfter(st: State, r: Report, p: Params, next: Id): Id {
    var (dev, a0) := PlanDevice(st, r, next);
    var a1 := PlanIfaces(a0.next, st, r, dev.id);
    var a2 := PlanAddrs(a1.next, st, r, p, dev.id);
    PlanGuests(PlanPackages(a2.next, st, r, dev.id).next, st, r, p, dev.id).next
  }

  lemma PartsAreBelow(st: State, r: Report, p: Params, next: Id)
    requires LoadedBelow(st, r, next)
    ensures next <= NextAfter(st, r, p, next) && PartsBelow(PartsOf(st, r, p, next), NextAfter(st, r, p, next))
  {
    var (dev, a0) := PlanDevice(st, r, next);
    var a1 := PlanIfaces(a0.next, st, r, dev.id);
    var a2 := PlanAddrs(a1.next, st, r, p, dev.id);
    var a3 := PlanPackages(a2.next, st, r, dev.id);
    DeviceBelow(st, r, next);
    FirstBelow(a0, st, r, p, dev.id);
    LastBelow(a3.next, st, r, p, dev);
    Lifted(a0, a1, a2, a3, NextAfter(st, r, p, next));
  }

  lemma LastBelow(next: Id, st: State, r: Report, p: Params, dev: Device)
    requires dev.id < next && (forall g :: g in st.guests ==> g.id < next)
          && forall g :: g in st.guestRows ==> g.host < next
    ensures var a := PlanGuests(next, st, r, p, dev.id);
            next <= a.next && AllBelow(a.ops, a.next) && AllBelow(PlanHardware(st, r, p, dev.id), a.next)
              && AllBelow(PlanSelf(st, r, dev), a.next)
  {
    GuestSectionBelow(next, st, r, p, dev.id);
    SelfBelow(st, r, dev, PlanGuests(next, st, r, p, dev.id).next);
  }

  lemma FirstBelow(a0: Acc, st: State, r: Report, p: Params, dev: Id)
    requires dev < a0.next
    ensures var a1 := PlanIfaces(a0.next, st, r, dev);
            var a2 := PlanAddrs(a1.next, st, r, p, dev);
            var a3 := PlanPackages(a2.next, st, r, dev);
            a0.next <= a1.next <= a2.next <= a3.next && AllBelow(a1.ops, a1.next) && AllBelow(a2.ops, a2.next)
              && AllBelow(a3.ops, a3.next)
  {
    IfacesBelow(a0.next, st, r, dev);
    AddrsBelow(PlanIfaces(a0.next, st, r, dev).next, st, r, p, dev);
    PackagesBelow(PlanAddrs(PlanIfaces(a0.next, st, r, dev).next, st, r, p, dev).next, st, r, dev);
  }

  lemma Lifted(a0: Acc, a1: Acc, a2: Acc, a3: Acc, n: Id)
    requires a0.next <= a1.next <= a2.next <= a3.next <= n
    requires AllBelow(a0.ops, a0.next) && AllBelow(a1.ops, a1.next) && AllBelow(a2.ops, a2.next)
          && AllBelow(a3.ops, a3.next)
    ensures AllBelow(a0.ops, n) && AllBelow(a1.ops, n) && AllBelow(a2.ops, n) && AllBelow(a3.ops, n)
  {
    BelowMore(a0.ops, a0.next, n);
    BelowMore(a1.ops, a1.next, n);
    BelowMore(a2.ops, a2.next, n);
    BelowMore(a3.ops, a3.next, n);
  }

  lemma AllPartsBelow(q: Parts, n: Id)
    requires PartsBelow(q, n)
    ensures AllBelow(All(q), n)
  {}

  lemma NextIsAfter(st: State, r: Report, p: Params, next: Id)
    ensures Build(st, r, p, next).next == NextAfter(st, r, p, next)
  {}

  lemma BuildBelow(st: State, r: Report, p: Params, next: Id)
    requires LoadedBelow(st, r, next)
    ensures var b := Build(st, r, p, next); next <= b.next && AllBelow(b.ops, b.next)
  {
    PartsAreBelow(st, r, p, next);
    NextIsAfter(st, r, p, next);
    BuildIsAll(st, r, p, next);
    AllPartsBelow(PartsOf(st, r, p, next), NextAfter(st, r, p, next));
  }

  lemma RunUnused(s: Store, ops: seq<Op>, next: Id, n: Id)
    requires Unused(s, next) && next <= n && AllBelow(ops, n)
    ensures Unused(s, n) && (Exec(s, ops).Ok? ==> Unused(Exec(s, ops).value, n))
  {
    if Exec(s, ops).Ok? { ExecUnused(s, ops, n); }
  }

  /** The planner's next id is unused in the store its plan leads to, and in the store it started from. */
  lemma AppliedUnused(s: Store, st: State, r: Report, p: Params, next: Id)
    requires WellFormed(s) && Unused(s, next) && Loads(s, r, st)
    ensures var b := Build(st, r, p, next);
            Unused(s, b.next) && (Exec(s, b.ops).Ok? ==> Unused(Exec(s, b.ops).value, b.next))
  {
    LoadsBelow(s, st, r, next);
    BuildBelow(st, r, p, next);
    RunUnused(s, Build(st, r, p, next).ops, next, Build(st, r, p, next).next);
  }
}
