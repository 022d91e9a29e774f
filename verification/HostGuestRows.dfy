/** The guest rows a plan writes, and this device's own place among other hosts' guests. */
module HostGuestRows {
  import opened Wrappers
  import opened HostStore
  import opened HostReport
  import opened HostPlan
  import opened HostLoad
  import opened HostTables
  import opened HostGuests

  predicate RowMatches(row: Guest, g: RGuest, dev: Id, link: Id) {
    row == GuestRow(row.id, dev, g, link, row.reportedAt)
  }

  /** The device of each reported guest. */
  function Links(ifaces: map<Id, Iface>, dev: Id, r: Report): (ls: seq<Id>)
    ensures |ls| == |r.guests| && forall k :: 0 <= k < |ls| ==> ls[k] == LinkOf(ifaces, dev, r.guests[k])
  {
    seq(|r.guests|, k requires 0 <= k < |r.guests| => LinkOf(ifaces, dev, r.guests[k]))
  }

  ghost predicate Listed(row: Guest, dev: Id, gs: seq<RGuest>, links: seq<Id>)
    requires |links| == |gs|
  {
    exists k :: 0 <= k < |gs| && RowMatches(row, gs[k], dev, links[k])
  }

  ghost predicate Stored(m: map<Id, Guest>, g: RGuest, dev: Id, link: Id) {
    exists i :: i in m && RowMatches(m[i], g, dev, link)
  }

  /** The host's guest rows are exactly the reported guests, each linked to its device. */
  ghost predicate RowsSettled(m: map<Id, Guest>, dev: Id, gs: seq<RGuest>, links: seq<Id>)
    requires |links| == |gs|
  {
    && (forall k :: 0 <= k < |gs| ==> Stored(m, gs[k], dev, links[k]))
    && (forall i :: i in m && m[i].host == dev ==> Listed(m[i], dev, gs, links))
    && (forall i, j :: i in m && j in m && m[i].host == dev && m[j].host == dev && m[i].ref == m[j].ref ==> i == j)
  }

  ghost predicate DistinctGuests(r: Report) {
    forall i, j :: 0 <= i < j < |r.guests| ==> r.guests[i].ref != r.guests[j].ref
  }

  ghost predicate GuestIds(m: map<Id, Guest>) {
    forall i :: i in m ==> m[i].id == i
  }

  // ---- the rows planned

  lemma WantRows(s: Store, st: State, next: Id, dev: Id, r: Report, p: Params, n: nat)
    requires KeysAreIds(s) && IfacesOwned(s) && ListsOwners(st.macOwners, s, GuestMacs(r)) && n <= |r.guests|
    ensures RowsFor(PlanGuestRows(next, st, dev, r, p, n).want, r.guests, n, dev, s.ifaces)
  {
    for m := 0 to n
      invariant RowsFor(PlanGuestRows(next, st, dev, r, p, m).want, r.guests, m, dev, s.ifaces)
    {
      var acc := PlanGuestRows(next, st, dev, r, p, m);
      WantRow(s, acc, st, dev, r, p, r.guests[m]);
      RowsForMore(acc.want, GuestStep(acc, st, dev, r.guests[m], p).want, r.guests, m, dev, s.ifaces);
    }
  }

  /** The first `n` reported guests have their rows. */
  ghost predicate RowsFor(w: seq<Guest>, gs: seq<RGuest>, n: nat, dev: Id, ifaces: map<Id, Iface>) {
    |w| == n <= |gs| && forall k :: 0 <= k < n ==> RowMatches(w[k], gs[k], dev, LinkOf(ifaces, dev, gs[k]))
  }

  lemma RowsForMore(w: seq<Guest>, w': seq<Guest>, gs: seq<RGuest>, n: nat, dev: Id, ifaces: map<Id, Iface>)
    requires RowsFor(w, gs, n, dev, ifaces) && n < |gs| && |w'| == n + 1 && w'[..n] == w
    requires RowMatches(w'[n], gs[n], dev, LinkOf(ifaces, dev, gs[n]))
    ensures RowsFor(w', gs, n + 1, dev, ifaces)
  {
    assert forall k :: 0 <= k < n ==> w'[k] == w'[..n][k];
  }

  lemma WantAll(s: Store, st: State, next: Id, dev: Id, r: Report, p: Params)
    requires KeysAreIds(s) && IfacesOwned(s) && ListsOwners(st.macOwners, s, GuestMacs(r))
    ensures WantOk(PlanGuestRows(next, st, dev, r, p, |r.guests|).want, dev, r.guests, Links(s.ifaces, dev, r))
  {
    WantRows(s, st, next, dev, r, p, |r.guests|);
  }

  lemma WantRow(s: Store, acc: GuestAcc, st: State, dev: Id, r: Report, p: Params, g: RGuest)
    requires KeysAreIds(s) && IfacesOwned(s) && ListsOwners(st.macOwners, s, GuestMacs(r)) && g in r.guests
    ensures var w := GuestStep(acc, st, dev, g, p).want;
            |w| == |acc.want| + 1 && w[..|acc.want|] == acc.want
              && RowMatches(w[|acc.want|], g, dev, LinkOf(s.ifaces, dev, g))
  {
    OwnerFound(s, st.macOwners, r, dev, g);
  }

  lemma {:induction false} WantIds(st: State, next: Id, dev: Id, r: Report, p: Params, n: nat)
    requires n <= |r.guests|
    ensures var a := PlanGuestRows(next, st, dev, r, p, n); IdsOk(a.want, st, r, n, next, a.next)
  {
    if n > 0 { WantIds(st, next, dev, r, p, n - 1); }
  }

  /** The ids of the planned rows: those found, and new ones. */
  ghost predicate IdsOk(w: seq<Guest>, st: State, r: Report, n: nat, next: Id, last: Id) {
    && |w| == n <= |r.guests| && next <= last
    && forall k :: 0 <= k < n ==> (var ex := FindGuest(st.guests, |st.guests|, r.guests[k].ref);
         if ex.Some? then w[k].id == ex.value.id else next <= w[k].id < last)
  }

  /** The last planned row has an id of its own. */
  lemma LastDistinct(w: seq<Guest>, g: Guest, st: State, r: Report, n: nat, next: Id, last: Id, j: nat)
    requires IdsOk(w, st, r, n, next, last) && j < n < |r.guests| && DistinctGuests(r)
    requires (forall i, j :: 0 <= i < j < |st.guests| ==> st.guests[i].id != st.guests[j].id)
          && forall g :: g in st.guests ==> g.id < next
    requires var ex := FindGuest(st.guests, |st.guests|, r.guests[n].ref);
             if ex.Some? then g.id == ex.value.id else g.id == last
    ensures w[j].id != g.id
  {
    assert st.guests[..|st.guests|] == st.guests;
    var x, y := FindGuest(st.guests, |st.guests|, r.guests[j].ref), FindGuest(st.guests, |st.guests|, r.guests[n].ref);
    if x.Some? && y.Some? {
      assert x.value in st.guests && y.value in st.guests;
    }
  }

  lemma {:induction false} WantDistinct(st: State, next: Id, dev: Id, r: Report, p: Params, n: nat, k: nat)
    requires k < n <= |r.guests| && DistinctGuests(r)
    requires (forall i, j :: 0 <= i < j < |st.guests| ==> st.guests[i].id != st.guests[j].id)
          && forall g :: g in st.guests ==> g.id < next
    ensures var w := PlanGuestRows(next, st, dev, r, p, n).want;
            |w| == n && forall j :: 0 <= j < k ==> w[j].id != w[k].id
  {
    WantIds(st, next, dev, r, p, n - 1);
    var a := PlanGuestRows(next, st, dev, r, p, n - 1);
    var w := GuestStep(a, st, dev, r.guests[n - 1], p).want;
    assert |w| == n && w[..n - 1] == a.want;
    if k < n - 1 {
      WantDistinct(st, next, dev, r, p, n - 1, k);
    } else {
      forall j | 0 <= j < k ensures w[j].id != w[k].id {
        LastDistinct(a.want, w[k], st, r, n - 1, next, a.next, j);
      }
    }
  }

  // ---- replacing the rows

  lemma {:induction false} PutOther(base: map<Id, Guest>, host: Id, rows: seq<Guest>, n: nat, i: Id)
    requires n <= |rows| && forall k :: 0 <= k < n ==> rows[k].id != i
    ensures i in PutGuests(base, host, rows, n) <==> i in base
    ensures i in base ==> PutGuests(base, host, rows, n)[i] == base[i]
  {
    if n > 0 { PutOther(base, host, rows, n - 1, i); }
  }

  lemma {:induction false} PutAt(base: map<Id, Guest>, host: Id, rows: seq<Guest>, n: nat, k: nat)
    requires k < n <= |rows| && forall i, j :: 0 <= i < j < |rows| ==> rows[i].id != rows[j].id
    ensures rows[k].id in PutGuests(base, host, rows, n)
          && PutGuests(base, host, rows, n)[rows[k].id] == rows[k].(host := host)
  {
    if k < n - 1 { PutAt(base, host, rows, n - 1, k); }
  }

  /** The replaced table: the new rows and the other hosts' rows. */
  lemma Replaced(m: map<Id, Guest>, dev: Id, rows: seq<Guest>, i: Id)
    requires GuestIds(m) && (forall i, j :: 0 <= i < j < |rows| ==> rows[i].id != rows[j].id)
    requires forall k :: 0 <= k < |rows| ==> rows[k].host == dev && (rows[k].id in m ==> m[rows[k].id].host == dev)
    ensures var t := PutGuests(WithoutHost(m, dev), dev, rows, |rows|);
            && (i in t ==> t[i].id == i && (t[i].host == dev ==> t[i] in rows))
            && (i in m && m[i].host != dev ==> i in t && t[i] == m[i])
            && (i in t && t[i].host != dev ==> i in m && m[i] == t[i])
  {
    var base := WithoutHost(m, dev);
    if k :| 0 <= k < |rows| && rows[k].id == i {
      PutAt(base, dev, rows, |rows|, k);
    } else {
      PutOther(base, dev, rows, |rows|, i);
    }
  }

  lemma ReplacedListed(m: map<Id, Guest>, t: map<Id, Guest>, dev: Id, gs: seq<RGuest>, links: seq<Id>,
                       rows: seq<Guest>, i: Id) returns (k: nat)
    requires GuestIds(m) && |rows| == |gs| == |links|
          && (forall i, j :: 0 <= i < j < |rows| ==> rows[i].id != rows[j].id)
    requires forall k :: 0 <= k < |rows| ==>
          RowMatches(rows[k], gs[k], dev, links[k]) && (rows[k].id in m ==> m[rows[k].id].host == dev)
    requires t == PutGuests(WithoutHost(m, dev), dev, rows, |rows|) && i in t && t[i].host == dev
    ensures k < |rows| && t[i] == rows[k] && i == rows[k].id && RowMatches(t[i], gs[k], dev, links[k])
  {
    Replaced(m, dev, rows, i);
    k :| 0 <= k < |rows| && rows[k] == t[i];
  }

  lemma ReplacedSettled(m: map<Id, Guest>, t: map<Id, Guest>, dev: Id, gs: seq<RGuest>, links: seq<Id>,
                        rows: seq<Guest>)
    requires GuestIds(m) && |rows| == |gs| == |links|
          && (forall i, j :: 0 <= i < j < |rows| ==> rows[i].id != rows[j].id)
    requires forall i, j :: 0 <= i < j < |gs| ==> gs[i].ref != gs[j].ref
    requires forall k :: 0 <= k < |rows| ==>
          RowMatches(rows[k], gs[k], dev, links[k]) && (rows[k].id in m ==> m[rows[k].id].host == dev)
    requires t == PutGuests(WithoutHost(m, dev), dev, rows, |rows|)
    ensures RowsSettled(t, dev, gs, links)
  {
    forall k | 0 <= k < |gs| ensures Stored(t, gs[k], dev, links[k]) {
      PutAt(WithoutHost(m, dev), dev, rows, |rows|, k);
      assert t[rows[k].id] == rows[k];
    }
    forall i | i in t && t[i].host == dev ensures Listed(t[i], dev, gs, links) {
      var k := ReplacedListed(m, t, dev, gs, links, rows, i);
    }
    forall i, j | i in t && j in t && t[i].host == dev && t[j].host == dev && t[i].ref == t[j].ref ensures i == j {
      var x := ReplacedListed(m, t, dev, gs, links, rows, i);
      var y := ReplacedListed(m, t, dev, gs, links, rows, j);
    }
  }

  // ---- rows already as reported

  function Refs(gs: seq<Guest>): (rs: seq<string>)
    ensures |rs| == |gs| && forall k :: 0 <= k < |gs| ==> rs[k] == gs[k].ref
  {
    seq(|gs|, k requires 0 <= k < |gs| => gs[k].ref)
  }

  function ReportRefs(gs: seq<RGuest>): (rs: seq<string>)
    ensures |rs| == |gs| && forall k :: 0 <= k < |gs| ==> rs[k] == gs[k].ref
  {
    seq(|gs|, k requires 0 <= k < |gs| => gs[k].ref)
  }

  /** As many rows as reported guests, each guest found: then every row is one guest's. */
  lemma {:induction false} FoundAll(a: seq<Guest>, gs: seq<RGuest>)
    requires |a| == |gs| && (forall i, j :: 0 <= i < j < |gs| ==> gs[i].ref != gs[j].ref)
    requires forall k :: 0 <= k < |gs| ==> gs[k].ref in Refs(a)
    ensures forall i, j :: 0 <= i < j < |a| ==> a[i].ref != a[j].ref
    ensures forall i :: 0 <= i < |a| ==> a[i].ref in ReportRefs(gs)
  {
    var rs, qs := Refs(a), ReportRefs(gs);
    DistinctCard(qs);
    var have, want := set x | x in rs, set x | x in qs;
    assert want <= have by {
      forall x | x in want ensures x in have {
        var k :| 0 <= k < |qs| && qs[k] == x;
      }
    }
    FewRefs(rs);
    SubsetFull(want, have);
    forall i, j | 0 <= i < j < |a| ensures a[i].ref != a[j].ref {
      if rs[i] == rs[j] { FewerRefs(rs, i, j); }
    }
    forall i | 0 <= i < |a| ensures a[i].ref in qs {
      assert rs[i] in have;
    }
  }

  lemma {:induction false} FewRefs(rs: seq<string>)
    ensures |set x | x in rs| <= |rs|
  {
    if rs != [] {
      var n := |rs| - 1;
      FewRefs(rs[..n]);
      assert (set x | x in rs) == (set x | x in rs[..n]) + {rs[n]};
    }
  }

  lemma FewerRefs(rs: seq<string>, i: nat, j: nat)
    requires i < j < |rs| && rs[i] == rs[j]
    ensures |set x | x in rs| < |rs|
  {
    var rest := rs[..j] + rs[j + 1..];
    FewRefs(rest);
    assert rest[i] == rs[j];
    forall x | x in rs ensures x in rest {
      var k :| 0 <= k < |rs| && rs[k] == x;
      assert k < j ==> rest[k] == x;
      assert k > j ==> rest[k - 1] == x;
    }
    forall x | x in rest ensures x in rs {}
    assert (set x | x in rs) == (set x | x in rest);
  }

  ghost predicate WantOk(want: seq<Guest>, dev: Id, gs: seq<RGuest>, links: seq<Id>) {
    |want| == |gs| == |links| && forall k :: 0 <= k < |want| ==> RowMatches(want[k], gs[k], dev, links[k])
  }

  lemma EqualFound(a: seq<Guest>, want: seq<Guest>, dev: Id, gs: seq<RGuest>, links: seq<Id>, k: nat)
    requires WantOk(want, dev, gs, links) && GuestsEqual(a, want) && k < |gs|
    requires forall g :: g in a ==> g.host == dev
    ensures var o := FindGuest(a, |a|, gs[k].ref);
            o.Some? && o.value in a && o.value.ref == gs[k].ref && RowMatches(o.value, gs[k], dev, links[k])
              && gs[k].ref in Refs(a)
  {
    assert want[k] in want && a[..|a|] == a;
    var o := FindGuest(a, |a|, gs[k].ref);
    assert o.value in a;
    var j :| 0 <= j < |a| && a[j] == o.value;
    assert Refs(a)[j] == gs[k].ref;
  }

  lemma EqualListed(m: map<Id, Guest>, a: seq<Guest>, want: seq<Guest>, dev: Id, gs: seq<RGuest>, links: seq<Id>, i: Id)
    requires GuestIds(m) && ListsGuests(a, m, dev) && WantOk(want, dev, gs, links) && GuestsEqual(a, want)
    requires (forall i, j :: 0 <= i < j < |a| ==> a[i].ref != a[j].ref)
          && forall i :: 0 <= i < |a| ==> a[i].ref in ReportRefs(gs)
    requires i in m && m[i].host == dev
    ensures Listed(m[i], dev, gs, links)
  {
    assert m[i] in a;
    var j :| 0 <= j < |a| && a[j] == m[i];
    var k :| 0 <= k < |gs| && gs[k].ref == a[j].ref;
    EqualFound(a, want, dev, gs, links, k);
    assert FindGuest(a, |a|, gs[k].ref).value == a[j];
  }

  lemma EqualSettled(m: map<Id, Guest>, a: seq<Guest>, want: seq<Guest>, dev: Id, gs: seq<RGuest>, links: seq<Id>)
    requires GuestIds(m) && ListsGuests(a, m, dev) && WantOk(want, dev, gs, links) && GuestsEqual(a, want)
    requires forall i, j :: 0 <= i < j < |gs| ==> gs[i].ref != gs[j].ref
    ensures RowsSettled(m, dev, gs, links)
  {
    forall k | 0 <= k < |gs| ensures Stored(m, gs[k], dev, links[k]) && gs[k].ref in Refs(a) {
      EqualFound(a, want, dev, gs, links, k);
      assert m[FindGuest(a, |a|, gs[k].ref).value.id] == FindGuest(a, |a|, gs[k].ref).value;
    }
    FoundAll(a, gs);
    forall i | i in m && m[i].host == dev ensures Listed(m[i], dev, gs, links) {
      EqualListed(m, a, want, dev, gs, links, i);
    }
    forall i, j | i in m && j in m && m[i].host == dev && m[j].host == dev && m[i].ref == m[j].ref ensures i == j {
      assert m[i] in a && m[j] in a;
    }
  }

  /** Settled rows are equal to the planned ones. */
  lemma SettledEqual(m: map<Id, Guest>, a: seq<Guest>, want: seq<Guest>, dev: Id, gs: seq<RGuest>, links: seq<Id>)
    requires GuestIds(m) && ListsGuests(a, m, dev) && WantOk(want, dev, gs, links) && RowsSettled(m, dev, gs, links)
    requires forall i, j :: 0 <= i < j < |gs| ==> gs[i].ref != gs[j].ref
    ensures GuestsEqual(a, want)
  {
    assert a[..|a|] == a;
    forall g | g in want ensures var o := FindGuest(a, |a|, g.ref); o.Some? && SameGuest(o.value, g) {
      var k :| 0 <= k < |want| && want[k] == g;
      var i :| i in m && RowMatches(m[i], gs[k], dev, links[k]);
      assert m[i] in a;
      var o := FindGuest(a, |a|, g.ref).value;
      assert o in a && o.id == i;
    }
    SettledCount(m, a, dev, gs, links);
  }

  lemma SettledCount(m: map<Id, Guest>, a: seq<Guest>, dev: Id, gs: seq<RGuest>, links: seq<Id>)
    requires GuestIds(m) && ListsGuests(a, m, dev) && |links| == |gs| && RowsSettled(m, dev, gs, links)
    requires forall i, j :: 0 <= i < j < |gs| ==> gs[i].ref != gs[j].ref
    ensures |a| == |gs|
  {
    var rs, qs := Refs(a), ReportRefs(gs);
    RefsDistinct(m, a, dev, gs, links);
    forall i | 0 <= i < |rs| ensures rs[i] in qs { RefReported(m, a, dev, gs, links, i); }
    forall k | 0 <= k < |qs| ensures qs[k] in rs { RefStored(m, a, dev, gs, links, k); }
    SameLength(rs, qs);
  }

  lemma RefsDistinct(m: map<Id, Guest>, a: seq<Guest>, dev: Id, gs: seq<RGuest>, links: seq<Id>)
    requires ListsGuests(a, m, dev) && |links| == |gs| && RowsSettled(m, dev, gs, links)
    ensures forall i, j :: 0 <= i < j < |a| ==> Refs(a)[i] != Refs(a)[j]
  {
    forall i, j | 0 <= i < j < |a| ensures Refs(a)[i] != Refs(a)[j] { assert a[i] in a && a[j] in a; }
  }

  lemma RefReported(m: map<Id, Guest>, a: seq<Guest>, dev: Id, gs: seq<RGuest>, links: seq<Id>, i: nat)
    requires ListsGuests(a, m, dev) && |links| == |gs| && RowsSettled(m, dev, gs, links) && i < |a|
    ensures a[i].ref in ReportRefs(gs)
  {
    assert a[i] in a && Listed(m[a[i].id], dev, gs, links);
    var k :| 0 <= k < |gs| && RowMatches(a[i], gs[k], dev, links[k]);
    assert ReportRefs(gs)[k] == a[i].ref;
  }

  lemma RefStored(m: map<Id, Guest>, a: seq<Guest>, dev: Id, gs: seq<RGuest>, links: seq<Id>, k: nat)
    requires GuestIds(m) && ListsGuests(a, m, dev) && |links| == |gs| && RowsSettled(m, dev, gs, links) && k < |gs|
    ensures gs[k].ref in Refs(a)
  {
    assert Stored(m, gs[k], dev, links[k]);
    var i :| i in m && RowMatches(m[i], gs[k], dev, links[k]);
    assert m[i] in a;
    var j :| 0 <= j < |a| && a[j] == m[i];
    assert Refs(a)[j] == gs[k].ref;
  }

  // ---- the guest section

  lemma {:induction false} GuestOpsSkip(st: State, next: Id, dev: Id, r: Report, p: Params, n: nat)
    requires n <= |r.guests|
    ensures forall op :: op in PlanGuestRows(next, st, dev, r, p, n).ops ==> op.SetHypervisor? && op.audit != []
  {
    if n > 0 { GuestOpsSkip(st, next, dev, r, p, n - 1); }
  }

  lemma {:induction false} UnlinkOpsSkip(acc: Acc, ds: seq<Device>, linked: set<Id>, n: nat)
    requires n <= |ds| && forall op :: op in acc.ops ==> op.SetHypervisor? && op.audit != []
    ensures forall op :: op in PlanUnlinks(acc, ds, linked, n).ops ==> op.SetHypervisor? && op.audit != []
  {
    if n > 0 { UnlinkOpsSkip(acc, ds, linked, n - 1); }
  }

  lemma StampedOk(want: seq<Guest>, now: Time, dev: Id, gs: seq<RGuest>, links: seq<Id>)
    requires WantOk(want, dev, gs, links)
    ensures WantOk(Stamped(want, now), dev, gs, links)
          && forall k :: 0 <= k < |want| ==> Stamped(want, now)[k].id == want[k].id
  {}

  /** The rows to write have ids of their own. */
  lemma WantFresh(m: map<Id, Guest>, st: State, next: Id, dev: Id, r: Report, p: Params, k: nat)
    requires ListsGuests(st.guests, m, dev) && (forall i :: i in m ==> i < next) && k < |r.guests|
    ensures var w := PlanGuestRows(next, st, dev, r, p, |r.guests|).want;
            |w| == |r.guests| && (w[k].id in m ==> m[w[k].id].host == dev)
  {
    WantIds(st, next, dev, r, p, |r.guests|);
    assert st.guests[..|st.guests|] == st.guests;
  }

  lemma {:induction false} WantRefs(st: State, next: Id, dev: Id, r: Report, p: Params, n: nat)
    requires n <= |r.guests|
    ensures var w := PlanGuestRows(next, st, dev, r, p, n).want;
            |w| == n && forall k :: 0 <= k < n ==> w[k].ref == r.guests[k].ref
  {
    if n > 0 { WantRefs(st, next, dev, r, p, n - 1); }
  }

  lemma ReplacedRow(m: map<Id, Guest>, st: State, next: Id, dev: Id, r: Report, p: Params, i: Id)
    requires GuestIds(m) && ListsGuests(st.guests, m, dev) && (forall i :: i in m ==> i < next) && DistinctGuests(r)
    requires forall g :: g in PlanGuestRows(next, st, dev, r, p, |r.guests|).want ==> g.host == dev
    ensures var rows := Stamped(PlanGuestRows(next, st, dev, r, p, |r.guests|).want, p.now);
            var t := PutGuests(WithoutHost(m, dev), dev, rows, |rows|);
            && (i in t ==> t[i].id == i && (t[i].host == dev ==> t[i] in rows))
            && (i in m && m[i].host != dev ==> i in t && t[i] == m[i])
            && (i in t && t[i].host != dev ==> i in m && m[i] == t[i])
  {
    var w := PlanGuestRows(next, st, dev, r, p, |r.guests|).want;
    var rows := Stamped(w, p.now);
    WantRefs(st, next, dev, r, p, |r.guests|);
    forall g | g in st.guests ensures g.id < next {}
    forall i, j | 0 <= i < j < |rows| ensures rows[i].id != rows[j].id {
      WantDistinct(st, next, dev, r, p, |r.guests|, j);
    }
    forall k | 0 <= k < |rows| ensures rows[k].host == dev && (rows[k].id in m ==> m[rows[k].id].host == dev) {
      WantFresh(m, st, next, dev, r, p, k);
      assert w[k] in w;
    }
    Replaced(m, dev, rows, i);
  }

  lemma RowsReplaced(m: map<Id, Guest>, st: State, next: Id, dev: Id, r: Report, p: Params, links: seq<Id>)
    requires GuestIds(m) && ListsGuests(st.guests, m, dev) && (forall i :: i in m ==> i < next) && DistinctGuests(r)
    requires WantOk(PlanGuestRows(next, st, dev, r, p, |r.guests|).want, dev, r.guests, links)
    ensures var rows := Stamped(PlanGuestRows(next, st, dev, r, p, |r.guests|).want, p.now);
            var t := PutGuests(WithoutHost(m, dev), dev, rows, |rows|);
            && RowsSettled(t, dev, r.guests, links) && GuestIds(t)
            && (forall i :: i in m && m[i].host != dev ==> i in t && t[i] == m[i])
            && (forall i :: i in t && t[i].host != dev ==> i in m && m[i] == t[i])
  {
    var w := PlanGuestRows(next, st, dev, r, p, |r.guests|).want;
    var rows := Stamped(w, p.now);
    StampedOk(w, p.now, dev, r.guests, links);
    forall g | g in st.guests ensures g.id < next {}
    forall i, j | 0 <= i < j < |rows| ensures rows[i].id != rows[j].id {
      WantDistinct(st, next, dev, r, p, |r.guests|, j);
    }
    forall k | 0 <= k < |rows| ensures rows[k].id in m ==> m[rows[k].id].host == dev {
      WantFresh(m, st, next, dev, r, p, k);
    }
    var t := PutGuests(WithoutHost(m, dev), dev, rows, |rows|);
    ReplacedSettled(m, t, dev, r.guests, links, rows);
    forall i ensures (i in t ==> t[i].id == i) && (i in m && m[i].host != dev ==> i in t && t[i] == m[i])
                     && (i in t && t[i].host != dev ==> i in m && m[i] == t[i])
    {
      ReplacedRow(m, st, next, dev, r, p, i);
    }
  }

  /** The guest rows after the section: replaced, or left when they are equal. */
  lemma GuestsOnRows(m: map<Id, Guest>, next: Id, st: State, r: Report, p: Params, dev: Id)
    requires !(r.guests == [] && st.guests == [] && st.guestDevices == [])
    ensures var want := PlanGuestRows(next, st, dev, r, p, |r.guests|).want;
            var rows := Stamped(want, p.now);
            Fold(WriteGuests, m, PlanGuests(next, st, r, p, dev).ops)
              == if GuestsEqual(st.guests, want) then m else PutGuests(WithoutHost(m, dev), dev, rows, |rows|)
  {
    var a, u := PlanGuestRows(next, st, dev, r, p, |r.guests|), LinkOps(next, st, r, p, dev);
    GuestOpsSkip(st, next, dev, r, p, |r.guests|);
    UnlinkOpsSkip(Acc(a.next, a.ops), st.guestDevices, a.linked, |st.guestDevices|);
    FoldSkip(WriteGuests, m, u.ops);
    FoldAdd(WriteGuests, m, u.ops, ReplaceGuests(dev, Stamped(a.want, p.now), [Audit(DeviceUpdated, dev)]));
  }

  lemma NoGuests(m: map<Id, Guest>, none: seq<Guest>, dev: Id, i: Id)
    requires GuestIds(m) && none == [] && ListsGuests(none, m, dev) && i in m
    ensures m[i].host != dev
  {
    assert m[i] in none <==> m[i].host == dev;
  }

  /** The guest section settles the host's guest rows and leaves other hosts' rows alone. */
  lemma RowsSettle(s: Store, m: map<Id, Guest>, st: State, next: Id, dev: Id, r: Report, p: Params)
    requires KeysAreIds(s) && IfacesOwned(s) && ListsOwners(st.macOwners, s, GuestMacs(r)) && DistinctGuests(r)
    requires GuestIds(m) && ListsGuests(st.guests, m, dev) && forall i :: i in m ==> i < next
    ensures var t := Fold(WriteGuests, m, PlanGuests(next, st, r, p, dev).ops);
            && RowsSettled(t, dev, r.guests, Links(s.ifaces, dev, r)) && GuestIds(t)
            && (forall i :: i in m && m[i].host != dev ==> i in t && t[i] == m[i])
            && (forall i :: i in t && t[i].host != dev ==> i in m && m[i] == t[i])
  {
    var links := Links(s.ifaces, dev, r);
    if r.guests == [] && st.guests == [] && st.guestDevices == [] {
      forall i | i in m ensures m[i].host != dev { NoGuests(m, st.guests, dev, i); }
    } else {
      var want := PlanGuestRows(next, st, dev, r, p, |r.guests|).want;
      GuestsOnRows(m, next, st, r, p, dev);
      WantAll(s, st, next, dev, r, p);
      if GuestsEqual(st.guests, want) {
        EqualSettled(m, st.guests, want, dev, r.guests, links);
      } else {
        RowsReplaced(m, st, next, dev, r, p, links);
      }
    }
  }

  /** A host's rows are as before or of now, and a guest that had a row keeps its id. */
  ghost predicate Dated(m: map<Id, Guest>, t: map<Id, Guest>, dev: Id, now: Time) {
    && ((forall i :: i in t && t[i].host == dev ==> i in m && t[i] == m[i])
        || forall i :: i in t && t[i].host == dev ==> t[i].reportedAt == now)
    && (forall i, j :: i in m && m[i].host == dev && j in t && t[j].host == dev && t[j].ref == m[i].ref ==>
          j in m && m[j].host == dev && m[j].ref == t[j].ref)
  }

  lemma ReplacedDated(m: map<Id, Guest>, st: State, next: Id, dev: Id, r: Report, p: Params, t: map<Id, Guest>)
    requires GuestIds(m) && ListsGuests(st.guests, m, dev)
    requires var rows := Stamped(PlanGuestRows(next, st, dev, r, p, |r.guests|).want, p.now);
             forall i :: i in t && t[i].host == dev ==> t[i].id == i && t[i] in rows
    ensures Dated(m, t, dev, p.now)
  {
    var w := PlanGuestRows(next, st, dev, r, p, |r.guests|).want;
    WantIds(st, next, dev, r, p, |r.guests|);
    WantRefs(st, next, dev, r, p, |r.guests|);
    assert st.guests[..|st.guests|] == st.guests;
    forall i, j | i in m && m[i].host == dev && j in t && t[j].host == dev && t[j].ref == m[i].ref
      ensures j in m && m[j].host == dev && m[j].ref == t[j].ref {
      var k :| 0 <= k < |w| && t[j] == Stamped(w, p.now)[k];
      assert m[i] in st.guests && w[k].ref == r.guests[k].ref;
      assert FindGuest(st.guests, |st.guests|, r.guests[k].ref).Some?;
    }
  }

  lemma RowsDated(s: Store, m: map<Id, Guest>, st: State, next: Id, dev: Id, r: Report, p: Params)
    requires KeysAreIds(s) && IfacesOwned(s) && ListsOwners(st.macOwners, s, GuestMacs(r)) && DistinctGuests(r)
    requires GuestIds(m) && ListsGuests(st.guests, m, dev) && forall i :: i in m ==> i < next
    ensures Dated(m, Fold(WriteGuests, m, PlanGuests(next, st, r, p, dev).ops), dev, p.now)
  {
    if !(r.guests == [] && st.guests == [] && st.guestDevices == []) {
      GuestsOnRows(m, next, st, r, p, dev);
      var want := PlanGuestRows(next, st, dev, r, p, |r.guests|).want;
      if !GuestsEqual(st.guests, want) {
        var rows := Stamped(want, p.now);
        var t := PutGuests(WithoutHost(m, dev), dev, rows, |rows|);
        WantAll(s, st, next, dev, r, p);
        forall i | i in t && t[i].host == dev ensures t[i].id == i && t[i] in rows {
          ReplacedRow(m, st, next, dev, r, p, i);
        }
        ReplacedDated(m, st, next, dev, r, p, t);
      }
    }
  }

  lemma SettledGuestsPlanNothing(s: Store, st: State, next: Id, dev: Id, r: Report, p: Params)
    requires KeysAreIds(s) && IfacesOwned(s) && ListsOwners(st.macOwners, s, GuestMacs(r)) && DistinctGuests(r)
    requires ListsGuests(st.guests, s.guests, dev)
          && ListsDevices(st.guestDevices, s.devices, (d: Device) => d.hypervisor == dev)
    requires LinksSettled(s.devices, s.ifaces, dev, r) && RowsSettled(s.guests, dev, r.guests, Links(s.ifaces, dev, r))
    ensures PlanGuests(next, st, r, p, dev).ops == []
  {
    SettledNoLinks(s, st, next, dev, r, p);
    SettledRows(s, st, next, dev, r, p);
  }

  lemma SettledRows(s: Store, st: State, next: Id, dev: Id, r: Report, p: Params)
    requires KeysAreIds(s) && IfacesOwned(s) && ListsOwners(st.macOwners, s, GuestMacs(r)) && DistinctGuests(r)
    requires ListsGuests(st.guests, s.guests, dev) && RowsSettled(s.guests, dev, r.guests, Links(s.ifaces, dev, r))
    ensures GuestsEqual(st.guests, PlanGuestRows(next, st, dev, r, p, |r.guests|).want)
  {
    WantAll(s, st, next, dev, r, p);
    SettledEqual(s.guests, st.guests, PlanGuestRows(next, st, dev, r, p, |r.guests|).want, dev, r.guests,
      Links(s.ifaces, dev, r));
  }

  lemma SettledNoLinks(s: Store, st: State, next: Id, dev: Id, r: Report, p: Params)
    requires KeysAreIds(s) && IfacesOwned(s) && ListsOwners(st.macOwners, s, GuestMacs(r))
    requires ListsDevices(st.guestDevices, s.devices, (d: Device) => d.hypervisor == dev)
          && LinksSettled(s.devices, s.ifaces, dev, r)
    ensures LinkOps(next, st, r, p, dev).ops == []
  {
    var a := PlanGuestRows(next, st, dev, r, p, |r.guests|);
    SettledLinks(s, st, next, dev, r, p, |r.guests|);
    SettledUnlinks(Acc(a.next, []), st.guestDevices, a.linked, |st.guestDevices|);
  }
}
