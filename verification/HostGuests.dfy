/** The guest and hypervisor sections of a plan, against the device and guest tables. */
module HostGuests {
  import opened Wrappers
  import opened HostStore
  import opened HostReport
  import opened HostPlan
  import opened HostLoad
  import opened HostTables

  // ---- counting

  lemma {:induction false} DistinctCard<T>(xs: seq<T>)
    requires forall i, j :: 0 <= i < j < |xs| ==> xs[i] != xs[j]
    ensures |set x | x in xs| == |xs|
  {
    if xs != [] {
      var n := |xs| - 1;
      DistinctCard(xs[..n]);
      assert (set x | x in xs) == (set x | x in xs[..n]) + {xs[n]};
      assert xs[n] !in xs[..n];
    }
  }

  lemma SameLength(xs: seq<string>, ys: seq<string>)
    requires forall i, j :: 0 <= i < j < |xs| ==> xs[i] != xs[j]
    requires forall i, j :: 0 <= i < j < |ys| ==> ys[i] != ys[j]
    requires (forall i :: 0 <= i < |xs| ==> xs[i] in ys) && forall i :: 0 <= i < |ys| ==> ys[i] in xs
    ensures |xs| == |ys|
  {
    DistinctCard(xs);
    DistinctCard(ys);
    assert (set x | x in xs) == (set x | x in ys);
  }

  lemma SubsetFull<T>(a: set<T>, b: set<T>)
    requires a <= b && |b| <= |a|
    ensures a == b
  {
    assert |b - a| == 0;
    assert b == a + (b - a);
  }

  // ---- who a guest is

  function OwnersIn(ifaces: map<Id, Iface>, dev: Id, macs: seq<string>): set<Id> {
    set i | i in ifaces && ifaces[i].device != dev && ifaces[i].cols.mac != ""
      && Lower(ifaces[i].cols.mac) in macs :: ifaces[i].device
  }

  /** The only other device carrying one of the guest's MACs, or 0. */
  function LinkOf(ifaces: map<Id, Iface>, dev: Id, g: RGuest): Id {
    var os := OwnersIn(ifaces, dev, g.macs);
    if |os| == 1 then TheOne(os) else 0
  }

  lemma OwnersLoaded(s: Store, os: seq<MacOwner>, r: Report, dev: Id, g: RGuest)
    requires IfacesOwned(s) && ListsOwners(os, s, GuestMacs(r)) && g in r.guests
    ensures Owners(os, dev, g.macs) == OwnersIn(s.ifaces, dev, g.macs)
  {
    var n :| 0 <= n < |r.guests| && r.guests[n] == g;
    forall m | m in g.macs ensures m in GuestMacs(r) {
      var k :| 0 <= k < |g.macs| && g.macs[k] == m;
      assert r.guests[n].macs[k] in GuestMacs(r);
    }
    forall d | d in OwnersIn(s.ifaces, dev, g.macs) ensures d in Owners(os, dev, g.macs) {
      var i :| i in s.ifaces && s.ifaces[i].device == d && d != dev && s.ifaces[i].cols.mac != ""
        && Lower(s.ifaces[i].cols.mac) in g.macs;
      var o := MacOwner(Lower(s.ifaces[i].cols.mac), d, s.devices[d].hypervisor);
      assert Carries(s, i, o.mac);
      assert o in os;
    }
    forall d | d in Owners(os, dev, g.macs) ensures d in OwnersIn(s.ifaces, dev, g.macs) {
      var o :| o in os && o.device == d && d != dev && o.mac in g.macs;
      var i :| Carries(s, i, o.mac) && s.ifaces[i].device == o.device;
    }
  }

  /** What the planner finds for a guest: its link and the link's current hypervisor. */
  lemma OwnerFound(s: Store, os: seq<MacOwner>, r: Report, dev: Id, g: RGuest)
    requires KeysAreIds(s) && IfacesOwned(s) && ListsOwners(os, s, GuestMacs(r)) && g in r.guests
    ensures var o, l := OneOwner(os, dev, g.macs), LinkOf(s.ifaces, dev, g);
            && (o.Some? <==> l != 0)
            && (o.Some? ==>
              o.value.device == l && l in s.devices && l != dev && o.value.hypervisor == s.devices[l].hypervisor)
  {
    OwnersLoaded(s, os, r, dev, g);
    var o := FindOwner(os, |os|, dev, g.macs);
    assert os[..|os|] == os;
    if |Owners(os, dev, g.macs)| == 1 {
      var l := TheOne(Owners(os, dev, g.macs));
      assert l in Owners(os, dev, g.macs);
      assert o.Some?;
      assert o.value.device in Owners(os, dev, g.macs);
      var i :| Carries(s, i, o.value.mac) && s.ifaces[i].device == o.value.device
        && s.devices[o.value.device].hypervisor == o.value.hypervisor;
    }
  }

  ghost function LinksTo(ifaces: map<Id, Iface>, dev: Id, r: Report, n: nat): set<Id>
    requires n <= |r.guests|
  {
    set k | 0 <= k < n && LinkOf(ifaces, dev, r.guests[k]) != 0 :: LinkOf(ifaces, dev, r.guests[k])
  }

  lemma LinksStep(ifaces: map<Id, Iface>, dev: Id, r: Report, n: nat)
    requires 0 < n <= |r.guests|
    ensures var l := LinkOf(ifaces, dev, r.guests[n - 1]);
            LinksTo(ifaces, dev, r, n) == LinksTo(ifaces, dev, r, n - 1) + (if l != 0 then {l} else {})
  {}

  // ---- hypervisor links

  /** The device table with exactly these devices linked to `dev`. */
  ghost predicate Relinked(d0: map<Id, Device>, d: map<Id, Device>, dev: Id, linked: set<Id>, unlinked: set<Id>) {
    && d.Keys == d0.Keys
    && (forall i :: i in d0 ==>
          d[i] == d0[i].(hypervisor := if i in linked then dev else if i in unlinked then 0 else d0[i].hypervisor))
  }

  lemma RelinkOne(d0: map<Id, Device>, d: map<Id, Device>, d': map<Id, Device>, dev: Id, linked: set<Id>, l: Id)
    requires Relinked(d0, d, dev, linked, {}) && l in d0
    requires d' == d[l := d[l].(hypervisor := dev)] || (d' == d && (l in linked || d0[l].hypervisor == dev))
    ensures Relinked(d0, d', dev, linked + {l}, {})
  {}

  /** Linking one device: written unless it is linked already. */
  lemma LinkWrites(d0: map<Id, Device>, ops: seq<Op>, ops': seq<Op>, dev: Id, linked: set<Id>, o: MacOwner)
    requires Relinked(d0, Fold(WriteDevices, d0, ops), dev, linked, {}) && o.device in d0
          && d0[o.device].hypervisor == o.hypervisor
    requires ops' == if o.device !in linked && o.hypervisor != dev
                     then ops + [SetHypervisor(o.device, dev, [Audit(HypervisorLinked, o.device)])] else ops
    ensures Relinked(d0, Fold(WriteDevices, d0, ops'), dev, linked + {o.device}, {})
  {
    if ops' != ops {
      FoldAdd(WriteDevices, d0, ops, SetHypervisor(o.device, dev, [Audit(HypervisorLinked, o.device)]));
    }
    RelinkOne(d0, Fold(WriteDevices, d0, ops), Fold(WriteDevices, d0, ops'), dev, linked, o.device);
  }

  lemma LinkStep(s: Store, d0: map<Id, Device>, a: GuestAcc, st: State, dev: Id, r: Report, p: Params, g: RGuest)
    requires KeysAreIds(s) && IfacesOwned(s) && ListsOwners(st.macOwners, s, GuestMacs(r)) && g in r.guests
    requires forall i :: i in s.devices && i != dev ==> i in d0 && d0[i].hypervisor == s.devices[i].hypervisor
    requires Relinked(d0, Fold(WriteDevices, d0, a.ops), dev, a.linked, {})
    ensures var b, l := GuestStep(a, st, dev, g, p), LinkOf(s.ifaces, dev, g);
            b.linked == a.linked + (if l != 0 then {l} else {})
              && Relinked(d0, Fold(WriteDevices, d0, b.ops), dev, b.linked, {})
  {
    OwnerFound(s, st.macOwners, r, dev, g);
    var o := OneOwner(st.macOwners, dev, g.macs);
    if o.Some? {
      LinkWrites(d0, a.ops, GuestStep(a, st, dev, g, p).ops, dev, a.linked, o.value);
    }
  }

  /** The guest pass: who is linked, and the links are written. */
  lemma {:induction false} LinkPass(s: Store, d0: map<Id, Device>, st: State, next: Id, dev: Id, r: Report, p: Params,
                                    n: nat)
    requires KeysAreIds(s) && IfacesOwned(s) && ListsOwners(st.macOwners, s, GuestMacs(r)) && n <= |r.guests|
    requires forall i :: i in s.devices && i != dev ==> i in d0 && d0[i].hypervisor == s.devices[i].hypervisor
    ensures var a := PlanGuestRows(next, st, dev, r, p, n);
            a.linked == LinksTo(s.ifaces, dev, r, n) && Relinked(d0, Fold(WriteDevices, d0, a.ops), dev, a.linked, {})
  {
    if n > 0 {
      LinkPass(s, d0, st, next, dev, r, p, n - 1);
      LinkStep(s, d0, PlanGuestRows(next, st, dev, r, p, n - 1), st, dev, r, p, r.guests[n - 1]);
      LinksStep(s.ifaces, dev, r, n);
    }
  }

  ghost function UnlinkedTo(ds: seq<Device>, linked: set<Id>, n: nat): set<Id>
    requires n <= |ds|
  {
    set k | 0 <= k < n && ds[k].id !in linked :: ds[k].id
  }

  lemma {:induction false} UnlinkPass(d0: map<Id, Device>, acc: Acc, ds: seq<Device>, dev: Id, linked: set<Id>, n: nat)
    requires n <= |ds| && Relinked(d0, Fold(WriteDevices, d0, acc.ops), dev, linked, {})
    ensures Relinked(d0, Fold(WriteDevices, d0, PlanUnlinks(acc, ds, linked, n).ops), dev, linked,
          UnlinkedTo(ds, linked, n))
  {
    if n > 0 {
      UnlinkPass(d0, acc, ds, dev, linked, n - 1);
      var d := ds[n - 1];
      if d.id !in linked {
        FoldAdd(WriteDevices, d0, PlanUnlinks(acc, ds, linked, n - 1).ops,
          SetHypervisor(d.id, 0, [Audit(HypervisorUnlinked, d.id)]));
        assert UnlinkedTo(ds, linked, n) == UnlinkedTo(ds, linked, n - 1) + {d.id};
      } else {
        assert UnlinkedTo(ds, linked, n) == UnlinkedTo(ds, linked, n - 1);
      }
    }
  }

  /** Exactly the guests' devices have `dev` as their hypervisor. */
  ghost predicate LinksSettled(devices: map<Id, Device>, ifaces: map<Id, Iface>, dev: Id, r: Report) {
    && (forall k :: 0 <= k < |r.guests| && LinkOf(ifaces, dev, r.guests[k]) != 0 ==>
          LinkOf(ifaces, dev, r.guests[k]) in devices && devices[LinkOf(ifaces, dev, r.guests[k])].hypervisor == dev)
    && (forall i :: i in devices && devices[i].hypervisor == dev ==> i in LinksTo(ifaces, dev, r, |r.guests|))
  }

  /** The device table with the guests' devices linked, those no longer guests released and the rest as before. */
  ghost predicate LinkedExactly(d0: map<Id, Device>, d: map<Id, Device>, ifaces: map<Id, Iface>, dev: Id, r: Report) {
    && d.Keys == d0.Keys
    && (forall i :: i in d0 ==>
          d[i] == d0[i].(hypervisor := if i in LinksTo(ifaces, dev, r, |r.guests|) then dev
                                       else if d0[i].hypervisor == dev then 0 else d0[i].hypervisor))
  }

  /** The writes before the guest rows are replaced. */
  function LinkOps(next: Id, st: State, r: Report, p: Params, dev: Id): Acc {
    var a := PlanGuestRows(next, st, dev, r, p, |r.guests|);
    PlanUnlinks(Acc(a.next, a.ops), st.guestDevices, a.linked, |st.guestDevices|)
  }

  lemma GuestsOnDevices(d0: map<Id, Device>, next: Id, st: State, r: Report, p: Params, dev: Id)
    requires !(r.guests == [] && st.guests == [] && st.guestDevices == [])
    ensures Fold(WriteDevices, d0, PlanGuests(next, st, r, p, dev).ops)
          == Fold(WriteDevices, d0, LinkOps(next, st, r, p, dev).ops)
  {
    var a := PlanGuestRows(next, st, dev, r, p, |r.guests|);
    FoldAdd(WriteDevices, d0, LinkOps(next, st, r, p, dev).ops,
      ReplaceGuests(dev, Stamped(a.want, p.now), [Audit(DeviceUpdated, dev)]));
  }

  lemma LinksSettle(s: Store, d0: map<Id, Device>, st: State, next: Id, dev: Id, r: Report, p: Params)
    requires KeysAreIds(s) && IfacesOwned(s) && ListsOwners(st.macOwners, s, GuestMacs(r)) && dev != 0
    requires ListsDevices(st.guestDevices, s.devices, (d: Device) => d.hypervisor == dev)
    requires forall i :: i in s.devices ==> i in d0 && d0[i].hypervisor == s.devices[i].hypervisor
    requires forall i :: i in d0 && i !in s.devices ==> d0[i].hypervisor == 0
    ensures var d := Fold(WriteDevices, d0, PlanGuests(next, st, r, p, dev).ops);
            && LinksSettled(d, s.ifaces, dev, r) && LinkedExactly(d0, d, s.ifaces, dev, r)
            && (dev in d0 && d0[dev].hypervisor != dev ==> d[dev] == d0[dev])
  {
    if !(r.guests == [] && st.guests == [] && st.guestDevices == []) {
      var a := PlanGuestRows(next, st, dev, r, p, |r.guests|);
      LinkPass(s, d0, st, next, dev, r, p, |r.guests|);
      UnlinkPass(d0, Acc(a.next, a.ops), st.guestDevices, dev, a.linked, |st.guestDevices|);
      GuestsOnDevices(d0, next, st, r, p, dev);
      LinksDone(s, d0, Fold(WriteDevices, d0, LinkOps(next, st, r, p, dev).ops), st, dev, r);
    } else {
      LinksDone(s, d0, d0, st, dev, r);
    }
  }

  lemma LinkIsOther(s: Store, dev: Id, r: Report, l: Id)
    requires KeysAreIds(s) && IfacesOwned(s) && l in LinksTo(s.ifaces, dev, r, |r.guests|)
    ensures l != dev && l in s.devices
  {}

  lemma LinksDone(s: Store, d0: map<Id, Device>, d: map<Id, Device>, st: State, dev: Id, r: Report)
    requires KeysAreIds(s) && IfacesOwned(s) && dev != 0
    requires ListsDevices(st.guestDevices, s.devices, (d: Device) => d.hypervisor == dev)
    requires forall i :: i in s.devices ==> i in d0 && d0[i].hypervisor == s.devices[i].hypervisor
    requires forall i :: i in d0 && i !in s.devices ==> d0[i].hypervisor == 0
    requires var linked := LinksTo(s.ifaces, dev, r, |r.guests|);
             Relinked(d0, d, dev, linked, UnlinkedTo(st.guestDevices, linked, |st.guestDevices|))
    ensures LinksSettled(d, s.ifaces, dev, r) && LinkedExactly(d0, d, s.ifaces, dev, r)
    ensures dev in d0 && d0[dev].hypervisor != dev ==> d[dev] == d0[dev]
  {
    var linked := LinksTo(s.ifaces, dev, r, |r.guests|);
    var unlinked := UnlinkedTo(st.guestDevices, linked, |st.guestDevices|);
    forall l | l in linked ensures l != dev && l in s.devices { LinkIsOther(s, dev, r, l); }
    forall k | 0 <= k < |r.guests| && LinkOf(s.ifaces, dev, r.guests[k]) != 0
      ensures LinkOf(s.ifaces, dev, r.guests[k]) in linked {}
    forall i | i in d && d0[i].hypervisor == dev && i !in linked ensures i in unlinked {
      assert s.devices[i] in st.guestDevices;
    }
    forall i | i in unlinked ensures i in s.devices && s.devices[i].hypervisor == dev {
      var k :| 0 <= k < |st.guestDevices| && st.guestDevices[k].id == i;
      assert st.guestDevices[k] in st.guestDevices;
    }
  }

  // ---- settled links plan nothing

  lemma SettledLinks(s: Store, st: State, next: Id, dev: Id, r: Report, p: Params, n: nat)
    requires KeysAreIds(s) && IfacesOwned(s) && ListsOwners(st.macOwners, s, GuestMacs(r)) && n <= |r.guests|
    requires LinksSettled(s.devices, s.ifaces, dev, r)
    ensures var a := PlanGuestRows(next, st, dev, r, p, n); a.ops == [] && a.linked == LinksTo(s.ifaces, dev, r, n)
  {
    for k := 0 to n
      invariant var a := PlanGuestRows(next, st, dev, r, p, k); a.ops == [] && a.linked == LinksTo(s.ifaces, dev, r, k)
    {
      SettledLink(s, PlanGuestRows(next, st, dev, r, p, k), st, dev, r, p, k);
      LinksStep(s.ifaces, dev, r, k + 1);
    }
  }

  /** A guest whose device is linked already adds no write. */
  lemma SettledLink(s: Store, acc: GuestAcc, st: State, dev: Id, r: Report, p: Params, k: nat)
    requires KeysAreIds(s) && IfacesOwned(s) && ListsOwners(st.macOwners, s, GuestMacs(r)) && k < |r.guests|
    requires LinksSettled(s.devices, s.ifaces, dev, r)
    ensures var a, l := GuestStep(acc, st, dev, r.guests[k], p), LinkOf(s.ifaces, dev, r.guests[k]);
            a.ops == acc.ops && a.linked == acc.linked + (if l != 0 then {l} else {})
  {
    OwnerFound(s, st.macOwners, r, dev, r.guests[k]);
  }

  lemma {:induction false} SettledUnlinks(acc: Acc, ds: seq<Device>, linked: set<Id>, n: nat)
    requires n <= |ds| && forall d :: d in ds ==> d.id in linked
    ensures PlanUnlinks(acc, ds, linked, n) == acc
  {
    if n > 0 {
      SettledUnlinks(acc, ds, linked, n - 1);
      assert ds[n - 1] in ds;
    }
  }
}
