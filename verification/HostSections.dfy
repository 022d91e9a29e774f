/** The address, package and hardware sections of a plan, each against its own table. */
module HostSections {
  import opened Wrappers
  import opened HostStore
  import opened HostReport
  import opened HostPlan
  import opened HostLoad
  import opened HostTables
  import opened HostAddrs
  import HostGuests

  // ---- addresses

  lemma {:induction false} OwnFrom(r: Report, n: nat, w: Wanted)
    requires n <= |r.ifaces| && w in OwnWanted(r, n)
    ensures exists i :: 0 <= i < n && r.ifaces[i].addrs == w.addrs
  {
    if n > 0 && w in OwnWanted(r, n - 1) { OwnFrom(r, n - 1, w); }
  }

  lemma {:induction false} BmcFrom(b: Bmc, taken: set<string>, n: nat, w: Wanted)
    requires n <= |BmcPorts(b)| && w in BmcWanted(b, taken, n)
    ensures forall a :: a in w.addrs ==> Some(a.addr) == b.address
  {
    if n > 0 && w in BmcWanted(b, taken, n - 1) { BmcFrom(b, taken, n - 1, w); }
  }

  lemma WantedAsked(r: Report, w: Wanted, a: RAddr)
    requires w in WantedIfaces(r) && a in w.addrs
    ensures Spelled(a.addr) in Asked(r)
  {
    var own := OwnWanted(r, |r.ifaces|);
    if w in own {
      OwnFrom(r, |r.ifaces|, w);
      var i :| 0 <= i < |r.ifaces| && r.ifaces[i].addrs == w.addrs;
      var k :| 0 <= k < |w.addrs| && w.addrs[k] == a;
      assert Spelled(r.ifaces[i].addrs[k].addr) in Asked(r);
    } else {
      BmcFrom(r.bmc.value, Taken(own), |BmcPorts(r.bmc.value)|, w);
    }
  }

  lemma {:induction false} ClaimsOfFrom(w: Wanted, n: nat, c: Claim)
    requires n <= |w.addrs| && c in ClaimsOf(w, n)
    ensures c.iface == w && c.addr in w.addrs
  {
    if n > 0 && c in ClaimsOf(w, n - 1) { ClaimsOfFrom(w, n - 1, c); }
  }

  lemma {:induction false} ClaimsFrom(ws: seq<Wanted>, n: nat, c: Claim)
    requires n <= |ws| && c in Claims(ws, n)
    ensures c.iface in ws && c.addr in c.iface.addrs
  {
    if n > 0 {
      if c in Claims(ws, n - 1) { ClaimsFrom(ws, n - 1, c); } else { ClaimsOfFrom(ws[n - 1], |ws[n - 1].addrs|, c); }
    }
  }

  function AllClaims(r: Report): seq<Claim> {
    Claims(WantedIfaces(r), |WantedIfaces(r)|)
  }

  /** Every address the planner looks up was loaded. */
  lemma ClaimsAsked(r: Report)
    ensures forall c :: c in AllClaims(r) ==> Key(c) in Asked(r)
  {
    forall c | c in AllClaims(r) ensures Key(c) in Asked(r) {
      ClaimsFrom(WantedIfaces(r), |WantedIfaces(r)|, c);
      WantedAsked(r, c.iface, c.addr);
    }
  }

  function PassOf(m: map<Id, AddrRow>, st: State, r: Report, p: Params, next: Id, dev: Id, clock: Time): Pass {
    Pass(m, StartAddrs(next, st), st.addrs, dev, Asked(r), AllClaims(r), r, p, clock)
  }

  lemma SeenAll(x: Pass)
    requires x.acc0.seen == {}
    ensures forall text :: text in PlanAt(x, |x.cs|).seen <==> Decides(x.cs, |x.cs|, text).Some?
  {
    forall text ensures text in PlanAt(x, |x.cs|).seen <==> Decides(x.cs, |x.cs|, text).Some? {
      SeenDecided(x, |x.cs|, text);
    }
  }

  /** The address section reaches the reported state. */
  lemma AddrsSettle(m: map<Id, AddrRow>, st: State, r: Report, p: Params, next: Id, dev: Id, clock: Time)
    requires AddrIds(m) && UniqueTexts(m) && ListsAddrs(st.addrs, m, dev, Asked(r)) && dev != 0
    requires (forall i :: i in m ==> i < next) && p.conflictWindow >= 0
    ensures Reached(m, Fold(WriteAddrs(clock), m, PlanAddrs(next, st, r, p, dev).ops), next, dev, AllClaims(r), r, p)
  {
    var x := PassOf(m, st, r, p, next, dev, clock);
    ClaimsAsked(r);
    AfterReached(x);
    SeenAll(x);
    var a := PlanAt(x, |x.cs|);
    ReleaseFold(m, Acc(a.next, a.ops), st.addrs, dev, x.cs, a.seen, r.bmc.None?, clock, |st.addrs|);
  }

  lemma SettledAddrsPlanNothing(m: map<Id, AddrRow>, st: State, r: Report, p: Params, next: Id, dev: Id)
    requires AddrIds(m) && ListsAddrs(st.addrs, m, dev, Asked(r)) && AddrsSettled(m, dev, AllClaims(r), r, p)
    ensures PlanAddrs(next, st, r, p, dev) == Acc(next, [])
  {
    var x := PassOf(m, st, r, p, next, dev, 0);
    ClaimsAsked(r);
    SettledClaims(x, |x.cs|);
    SeenAll(x);
    SettledReleases(m, st.addrs, dev, Asked(r), x.cs, PlanAt(x, |x.cs|).seen, r, p, Acc(next, []), |st.addrs|);
  }

  // ---- packages

  /** The stored rows are exactly the pending updates. */
  ghost predicate PackagesMatch(cur: seq<Package>, r: Report) {
    && (forall p :: p in cur ==> exists q :: q in r.pending && q.name == p.name)
    && (forall k :: 0 <= k < |r.pending| ==> PackageMatches(cur, r.pending[k], r.updates.manager))
  }

  predicate PackageMatches(cur: seq<Package>, q: Pending, manager: string) {
    var ex := FindPackage(cur, |cur|, q.name);
    ex.Some? && ex.value == Package(ex.value.id, q.name, q.installed, q.available, true, q.security, manager)
  }

  predicate Reports(r: Report) {
    r.updates.status == "up_to_date" || r.updates.status == "updates_available"
  }

  ghost predicate PackagesSettled(cur: seq<Package>, r: Report) {
    Reports(r) ==> PackagesMatch(cur, r)
  }

  lemma {:induction false} PendingDirty(next: Id, cur: seq<Package>, r: Report, n: nat)
    requires n <= |r.pending|
    ensures PlanPending(next, cur, r, n).dirty <==> exists k ::
          0 <= k < n && !PackageMatches(cur, r.pending[k], r.updates.manager)
    ensures (forall k :: 0 <= k < n ==> PackageMatches(cur, r.pending[k], r.updates.manager)) ==>
          PlanPending(next, cur, r, n).next == next
  {
    if n > 0 { PendingDirty(next, cur, r, n - 1); }
  }

  lemma {:induction false} PendingRows(next: Id, cur: seq<Package>, r: Report, n: nat)
    requires n <= |r.pending|
    ensures var rows := PlanPending(next, cur, r, n).rows;
            |rows| == n && forall k :: 0 <= k < n ==> (var q := r.pending[k];
              rows[k] == Package(rows[k].id, q.name, q.installed, q.available, true, q.security, r.updates.manager))
  {
    if n > 0 { PendingRows(next, cur, r, n - 1); }
  }

  lemma {:induction false} FindOnly(ps: seq<Package>, n: nat, k: nat)
    requires k < n <= |ps| && forall i, j :: 0 <= i < j < |ps| ==> ps[i].name != ps[j].name
    ensures FindPackage(ps, n, ps[k].name) == Some(ps[k])
  {
    if k < n - 1 { FindOnly(ps, n - 1, k); }
  }

  /** The rows a plan writes are the pending updates. */
  lemma PlannedMatch(next: Id, cur: seq<Package>, r: Report)
    requires forall i, j :: 0 <= i < j < |r.pending| ==> r.pending[i].name != r.pending[j].name
    ensures PackagesMatch(PlanPending(next, cur, r, |r.pending|).rows, r)
  {
    var rows := PlanPending(next, cur, r, |r.pending|).rows;
    PendingRows(next, cur, r, |r.pending|);
    forall k | 0 <= k < |r.pending| ensures PackageMatches(rows, r.pending[k], r.updates.manager) {
      FindOnly(rows, |rows|, k);
    }
    forall p | p in rows ensures exists q :: q in r.pending && q.name == p.name {
      var k :| 0 <= k < |rows| && rows[k] == p;
      assert r.pending[k] in r.pending;
    }
  }

  predicate DistinctPackages(ps: seq<Package>) {
    forall i, j :: 0 <= i < j < |ps| ==> ps[i].name != ps[j].name
  }

  function PackageNames(ps: seq<Package>): (ns: seq<string>)
    ensures |ns| == |ps| && forall i :: 0 <= i < |ns| ==> ns[i] == ps[i].name
  {
    if ps == [] then [] else PackageNames(ps[..|ps| - 1]) + [ps[|ps| - 1].name]
  }

  function PendingNames(qs: seq<Pending>): (ns: seq<string>)
    ensures |ns| == |qs| && forall i :: 0 <= i < |ns| ==> ns[i] == qs[i].name
  {
    if qs == [] then [] else PendingNames(qs[..|qs| - 1]) + [qs[|qs| - 1].name]
  }

  lemma NameListed(cur: seq<Package>, r: Report, i: nat)
    requires PackagesMatch(cur, r) && i < |cur|
    ensures cur[i].name in PendingNames(r.pending)
  {
    assert cur[i] in cur;
    var q :| q in r.pending && q.name == cur[i].name;
    var k :| 0 <= k < |r.pending| && r.pending[k] == q;
    assert PendingNames(r.pending)[k] == cur[i].name;
  }

  lemma NameStored(cur: seq<Package>, r: Report, k: nat)
    requires PackagesMatch(cur, r) && k < |r.pending|
    ensures r.pending[k].name in PackageNames(cur)
  {
    assert cur[..|cur|] == cur && PackageMatches(cur, r.pending[k], r.updates.manager);
    var i :| 0 <= i < |cur| && cur[i] == FindPackage(cur, |cur|, r.pending[k].name).value;
    assert PackageNames(cur)[i] == r.pending[k].name;
  }

  /** With distinct names, matching rows are as many as the pending updates: one for each and no other. */
  lemma MatchCounts(cur: seq<Package>, r: Report)
    requires DistinctPackages(cur) && PackagesMatch(cur, r) && Normalized(r)
    ensures |cur| == |r.pending|
  {
    var xs, ys := PackageNames(cur), PendingNames(r.pending);
    forall i | 0 <= i < |xs| ensures xs[i] in ys { NameListed(cur, r, i); }
    forall k | 0 <= k < |ys| ensures ys[k] in xs { NameStored(cur, r, k); }
    HostGuests.SameLength(xs, ys);
  }

  /** The stored packages after the section: the planned rows, or those that were there. */
  lemma PackagesAfter(m: map<Id, seq<Package>>, st: State, r: Report, next: Id, dev: Id)
    requires st.packages == PackagesIn(m, dev)
    ensures var a := PlanPending(next, st.packages, r, |r.pending|);
            PackagesIn(Fold(WritePackages, m, PlanPackages(next, st, r, dev).ops), dev)
              == if Reports(r) && (a.dirty || Dropped(st.packages, r)) then a.rows else st.packages
  {
    var a := PlanPending(next, st.packages, r, |r.pending|);
    if Reports(r) && (a.dirty || Dropped(st.packages, r)) {
      var op := ReplacePackages(dev, a.rows, [Audit(PackagesUpdated, dev)]);
      assert [] + [op] == [op];
      FoldAdd(WritePackages, m, [], op);
    }
  }

  lemma PackagesSettle(m: map<Id, seq<Package>>, st: State, r: Report, next: Id, dev: Id)
    requires st.packages == PackagesIn(m, dev) && Normalized(r)
    ensures PackagesSettled(PackagesIn(Fold(WritePackages, m, PlanPackages(next, st, r, dev).ops), dev), r)
  {
    PackagesAfter(m, st, r, next, dev);
    PendingDirty(next, st.packages, r, |r.pending|);
    PlannedMatch(next, st.packages, r);
  }

  /** Names stay distinct, and then the stored rows are exactly the pending updates, one for each. */
  lemma PackagesExact(m: map<Id, seq<Package>>, st: State, r: Report, next: Id, dev: Id)
    requires st.packages == PackagesIn(m, dev) && Normalized(r) && DistinctPackages(st.packages)
    ensures var t := PackagesIn(Fold(WritePackages, m, PlanPackages(next, st, r, dev).ops), dev);
            DistinctPackages(t) && (Reports(r) ==> PackagesMatch(t, r) && |t| == |r.pending|)
  {
    PackagesSettle(m, st, r, next, dev);
    PackagesAfter(m, st, r, next, dev);
    PendingRows(next, st.packages, r, |r.pending|);
    var t := PackagesIn(Fold(WritePackages, m, PlanPackages(next, st, r, dev).ops), dev);
    if Reports(r) { MatchCounts(t, r); }
  }

  lemma SettledPackagesPlanNothing(st: State, r: Report, next: Id, dev: Id)
    requires PackagesSettled(st.packages, r)
    ensures PlanPackages(next, st, r, dev) == Acc(next, [])
  {
    if Reports(r) { PendingDirty(next, st.packages, r, |r.pending|); }
  }

  // ---- hardware

  ghost predicate HardwareSettled(cur: Option<Hardware>, r: Report) {
    r.hardware.Some? ==>
      && cur.Some? && cur.value.digest == r.hardware.value.digest
      && cur.value.profile.free == r.hardware.value.profile.free
  }

  /** Equal digests mean equal hardware, free bytes aside. */
  predicate SoundDigest(cur: Option<Hardware>, r: Report) {
    cur.Some? && r.hardware.Some? && cur.value.digest == r.hardware.value.digest ==>
      cur.value.profile.facts == r.hardware.value.profile.facts
  }

  lemma HardwareSettle(m: map<Id, Hardware>, st: State, r: Report, p: Params, dev: Id)
    requires r.hardware.Some? ==> st.hardware == HardwareIn(m, dev)
    ensures HardwareSettled(HardwareIn(Fold(WriteHardware, m, PlanHardware(st, r, p, dev)), dev), r)
    ensures r.hardware.Some? && SoundDigest(st.hardware, r) ==>
              var h := HardwareIn(Fold(WriteHardware, m, PlanHardware(st, r, p, dev)), dev);
              h.Some? && h.value.profile == r.hardware.value.profile
  {
    var ops := PlanHardware(st, r, p, dev);
    if ops != [] {
      assert ops == [] + [ops[0]];
      FoldAdd(WriteHardware, m, [], ops[0]);
    }
  }

  lemma SettledHardwarePlanNothing(st: State, r: Report, p: Params, dev: Id)
    requires HardwareSettled(st.hardware, r)
    ensures PlanHardware(st, r, p, dev) == []
  {}
}
