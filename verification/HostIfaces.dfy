/** The interface writes of a plan leave nothing for a second plan to do. */
module HostIfaces {
  import opened Wrappers
  import opened HostStore
  import opened HostReport
  import opened HostPlan
  import opened HostLoad
  import opened HostTables

  /** Planning from these rows writes no interface. */
  ghost predicate IfaceOk(i: Iface, ws: seq<Wanted>, noBmc: bool) {
    && (forall w :: w in ws && w.name == i.name ==> Refreshed(i.cols, w) == i.cols)
    && !Lost(i, ws, noBmc)
  }

  ghost predicate IfacesSettled(m: map<Id, Iface>, dev: Id, ws: seq<Wanted>, noBmc: bool) {
    && (forall w :: w in ws ==> HasIface(m, dev, w.name))
    && (forall i :: i in m && m[i].device == dev ==> IfaceOk(m[i], ws, noBmc))
  }

  ghost predicate IfaceIds(m: map<Id, Iface>) {
    forall i :: i in m ==> m[i].id == i
  }

  // ---- settled rows plan nothing

  lemma SettledFound(m: map<Id, Iface>, rows: seq<Iface>, dev: Id, ws: seq<Wanted>, noBmc: bool, w: Wanted)
    requires IfaceIds(m) && ListsIfaces(rows, m, dev) && IfacesSettled(m, dev, ws, noBmc) && w in ws
    ensures var ex := FindIface(rows, |rows|, w.name); ex.Some? && Refreshed(ex.value.cols, w) == ex.value.cols
  {
    var i :| i in m && m[i].device == dev && m[i].name == w.name;
    assert m[i] in rows;
    assert rows[..|rows|] == rows;
    var ex := FindIface(rows, |rows|, w.name).value;
    assert IfaceOk(ex, ws, noBmc);
  }

  lemma SettledWanted(m: map<Id, Iface>, rows: seq<Iface>, next: Id, dev: Id, ws: seq<Wanted>, noBmc: bool, n: nat)
    requires IfaceIds(m) && ListsIfaces(rows, m, dev) && IfacesSettled(m, dev, ws, noBmc) && n <= |ws|
    ensures PlanWanted(next, rows, dev, ws, n) == Acc(next, [])
  {
    for k := 0 to n
      invariant PlanWanted(next, rows, dev, ws, k) == Acc(next, [])
    {
      SettledStep(m, rows, Acc(next, []), dev, ws, noBmc, ws[k]);
    }
  }

  lemma SettledStep(m: map<Id, Iface>, rows: seq<Iface>, acc: Acc, dev: Id, ws: seq<Wanted>, noBmc: bool, w: Wanted)
    requires IfaceIds(m) && ListsIfaces(rows, m, dev) && IfacesSettled(m, dev, ws, noBmc) && w in ws
    ensures IfaceStep(acc, rows, dev, w) == acc
  {
    SettledFound(m, rows, dev, ws, noBmc, w);
  }

  lemma {:induction false} SettledLost(m: map<Id, Iface>, rows: seq<Iface>, acc: Acc, dev: Id, ws: seq<Wanted>,
                                       noBmc: bool, n: nat)
    requires ListsIfaces(rows, m, dev) && IfacesSettled(m, dev, ws, noBmc) && n <= |rows|
    ensures PlanLost(acc, rows, ws, noBmc, n) == acc
  {
    if n > 0 {
      SettledLost(m, rows, acc, dev, ws, noBmc, n - 1);
      assert rows[n - 1] in rows;
    }
  }

  lemma SettledPlanNothing(m: map<Id, Iface>, st: State, r: Report, next: Id, dev: Id)
    requires IfaceIds(m) && ListsIfaces(st.ifaces, m, dev) && IfacesSettled(m, dev, WantedIfaces(r), r.bmc.None?)
    ensures PlanIfaces(next, st, r, dev) == Acc(next, [])
  {
    var ws := WantedIfaces(r);
    SettledWanted(m, st.ifaces, next, dev, ws, r.bmc.None?, |ws|);
    SettledLost(m, st.ifaces, Acc(next, []), dev, ws, r.bmc.None?, |st.ifaces|);
  }

  // ---- the table after the first n wanted interfaces

  ghost function WantedTable(m: map<Id, Iface>, next: Id, rows: seq<Iface>, dev: Id, ws: seq<Wanted>, n: nat):
    map<Id, Iface>
    requires n <= |ws|
  {
    Fold(WriteIfaces, m, PlanWanted(next, rows, dev, ws, n).ops)
  }

  ghost predicate Start(m: map<Id, Iface>, next: Id, rows: seq<Iface>, dev: Id, ws: seq<Wanted>) {
    && IfaceIds(m) && UniqueIfaces(m) && ListsIfaces(rows, m, dev) && DistinctWanted(ws)
    && (forall i :: i in m ==> i < next)
  }

  /** One more wanted interface writes one row. */
  lemma WantedStep(m: map<Id, Iface>, next: Id, rows: seq<Iface>, dev: Id, ws: seq<Wanted>, n: nat)
    requires 0 < n <= |ws|
    ensures var t, t' := WantedTable(m, next, rows, dev, ws, n - 1), WantedTable(m, next, rows, dev, ws, n);
            var a, ex := PlanWanted(next, rows, dev, ws, n - 1), FindIface(rows, |rows|, ws[n - 1].name);
            && (ex.None? ==> t' == t[a.next := NewIface(a.next, dev, ws[n - 1])])
            && (ex.Some? ==> PlanWanted(next, rows, dev, ws, n).next == a.next)
            && (ex.Some? && ex.value.id in t && t[ex.value.id] == ex.value ==>
                  t' == t[ex.value.id := ex.value.(cols := Refreshed(ex.value.cols, ws[n - 1]))])
            && (ex.Some? ==> t'.Keys == t.Keys && forall i :: i in t && i != ex.value.id ==> t'[i] == t[i])
  {
    var a, b := PlanWanted(next, rows, dev, ws, n - 1), PlanWanted(next, rows, dev, ws, n);
    if a.ops != b.ops {
      var op := b.ops[|a.ops|];
      assert b.ops == a.ops + [op];
      FoldAdd(WriteIfaces, m, a.ops, op);
    } else {
      var t := WantedTable(m, next, rows, dev, ws, n);
      var ex := FindIface(rows, |rows|, ws[n - 1].name);
      assert ex.None? ==> |b.ops| == |a.ops| + 1;
      assert ex.Some? && ex.value.id in t && t[ex.value.id] == ex.value ==> t == t[ex.value.id := ex.value];
    }
  }

  lemma {:induction false} NextGrows(next: Id, rows: seq<Iface>, dev: Id, ws: seq<Wanted>, n: nat)
    requires n <= |ws|
    ensures next <= PlanWanted(next, rows, dev, ws, n).next
  {
    if n > 0 { NextGrows(next, rows, dev, ws, n - 1); }
  }

  /** What an existing row becomes. */
  function Became(i: Iface, dev: Id, ws: seq<Wanted>, n: nat): Iface
    requires n <= |ws|
  {
    var w := WantedNamed(ws, n, i.name);
    if i.device == dev && w.Some? then i.(cols := Refreshed(i.cols, w.value)) else i
  }

  lemma NotYet(ws: seq<Wanted>, n: nat)
    requires DistinctWanted(ws) && 0 < n <= |ws|
    ensures WantedNamed(ws, n - 1, ws[n - 1].name).None?
  {}

  lemma {:induction false} TrackOld(m: map<Id, Iface>, next: Id, rows: seq<Iface>, dev: Id, ws: seq<Wanted>, n: nat,
                                    i: Id)
    requires Start(m, next, rows, dev, ws) && n <= |ws| && i in m
    ensures i in WantedTable(m, next, rows, dev, ws, n)
    ensures WantedTable(m, next, rows, dev, ws, n)[i] == Became(m[i], dev, ws, n)
  {
    if n > 0 {
      TrackOld(m, next, rows, dev, ws, n - 1, i);
      WantedStep(m, next, rows, dev, ws, n);
      NextGrows(next, rows, dev, ws, n - 1);
      NotYet(ws, n);
      assert rows[..|rows|] == rows;
      var ex := FindIface(rows, |rows|, ws[n - 1].name);
      if m[i].device == dev && m[i].name == ws[n - 1].name {
        assert m[i] in rows;
      }
      assert ex.Some? && ex.value.id != i ==> m[i].device != dev || m[i].name != ws[n - 1].name;
    }
  }

  /** The rows created, by the wanted interface they were created for. */
  lemma {:induction false} TrackNew(m: map<Id, Iface>, next: Id, rows: seq<Iface>, dev: Id, ws: seq<Wanted>, n: nat,
                                    i: Id)
    requires Start(m, next, rows, dev, ws) && n <= |ws|
    requires i in WantedTable(m, next, rows, dev, ws, n) && i !in m
    ensures next <= i < PlanWanted(next, rows, dev, ws, n).next
    ensures exists w :: w in ws && WantedTable(m, next, rows, dev, ws, n)[i] == NewIface(i, dev, w)
  {
    if n > 0 {
      NewRow(m, next, rows, dev, ws, n, i);
      NextGrows(next, rows, dev, ws, n - 1);
      if i in WantedTable(m, next, rows, dev, ws, n - 1) { TrackNew(m, next, rows, dev, ws, n - 1, i); }
    }
  }

  /** A row that was not stored was there a step before, or is the one just created. */
  lemma NewRow(m: map<Id, Iface>, next: Id, rows: seq<Iface>, dev: Id, ws: seq<Wanted>, n: nat, i: Id)
    requires Start(m, next, rows, dev, ws) && 0 < n <= |ws|
    requires i in WantedTable(m, next, rows, dev, ws, n) && i !in m
    ensures var a, b := PlanWanted(next, rows, dev, ws, n - 1), PlanWanted(next, rows, dev, ws, n);
            var t, t' := WantedTable(m, next, rows, dev, ws, n - 1), WantedTable(m, next, rows, dev, ws, n);
            && a.next <= b.next
            && (if i in t && (i != a.next || a.next == b.next) then t'[i] == t[i]
                else i == a.next < b.next && t'[i] == NewIface(i, dev, ws[n - 1]))
  {
    WantedStep(m, next, rows, dev, ws, n);
    assert rows[..|rows|] == rows;
    var ex := FindIface(rows, |rows|, ws[n - 1].name);
    assert ex.Some? ==> ex.value.id in m;
  }

  /** Rows keep their names. */
  lemma KeepName(m: map<Id, Iface>, next: Id, rows: seq<Iface>, dev: Id, ws: seq<Wanted>, n: nat, i: Id)
    requires Start(m, next, rows, dev, ws) && 0 < n <= |ws| && i in WantedTable(m, next, rows, dev, ws, n - 1)
    ensures var t, t' := WantedTable(m, next, rows, dev, ws, n - 1), WantedTable(m, next, rows, dev, ws, n);
            i in t' && t'[i].device == t[i].device && t'[i].name == t[i].name
  {
    if i in m {
      TrackOld(m, next, rows, dev, ws, n - 1, i);
      TrackOld(m, next, rows, dev, ws, n, i);
    } else {
      KeepNew(m, next, rows, dev, ws, n, i);
    }
  }

  lemma KeepNew(m: map<Id, Iface>, next: Id, rows: seq<Iface>, dev: Id, ws: seq<Wanted>, n: nat, i: Id)
    requires Start(m, next, rows, dev, ws) && 0 < n <= |ws| && i !in m
          && i in WantedTable(m, next, rows, dev, ws, n - 1)
    ensures var t, t' := WantedTable(m, next, rows, dev, ws, n - 1), WantedTable(m, next, rows, dev, ws, n);
            i in t' && t'[i] == t[i]
  {
    WantedStep(m, next, rows, dev, ws, n);
    NewIdsOnly(m, next, rows, dev, ws, n - 1, i);
    assert rows[..|rows|] == rows;
  }

  lemma NamedNow(m: map<Id, Iface>, next: Id, rows: seq<Iface>, dev: Id, ws: seq<Wanted>, n: nat)
    requires Start(m, next, rows, dev, ws) && 0 < n <= |ws|
    ensures HasIface(WantedTable(m, next, rows, dev, ws, n), dev, ws[n - 1].name)
  {
    WantedStep(m, next, rows, dev, ws, n);
    assert rows[..|rows|] == rows;
    var ex := FindIface(rows, |rows|, ws[n - 1].name);
    if ex.Some? {
      assert ex.value in rows;
      TrackOld(m, next, rows, dev, ws, n, ex.value.id);
    } else {
      assert PlanWanted(next, rows, dev, ws, n - 1).next in WantedTable(m, next, rows, dev, ws, n);
    }
  }

  lemma {:induction false} TrackNames(m: map<Id, Iface>, next: Id, rows: seq<Iface>, dev: Id, ws: seq<Wanted>, n: nat,
                                      k: nat)
    requires Start(m, next, rows, dev, ws) && k < n <= |ws|
    ensures HasIface(WantedTable(m, next, rows, dev, ws, n), dev, ws[k].name)
  {
    if k < n - 1 {
      TrackNames(m, next, rows, dev, ws, n - 1, k);
      var t := WantedTable(m, next, rows, dev, ws, n - 1);
      var i :| i in t && t[i].device == dev && t[i].name == ws[k].name;
      KeepName(m, next, rows, dev, ws, n, i);
      assert i in WantedTable(m, next, rows, dev, ws, n);
    } else {
      NamedNow(m, next, rows, dev, ws, n);
    }
  }

  lemma NewIdsOnly(m: map<Id, Iface>, next: Id, rows: seq<Iface>, dev: Id, ws: seq<Wanted>, n: nat, i: Id)
    requires Start(m, next, rows, dev, ws) && n <= |ws| && i in WantedTable(m, next, rows, dev, ws, n)
    ensures i < PlanWanted(next, rows, dev, ws, n).next
  {
    NextGrows(next, rows, dev, ws, n);
    if i !in m { TrackNew(m, next, rows, dev, ws, n, i); }
  }

  // ---- the table after the lost interfaces were marked

  ghost function LostTable(t: map<Id, Iface>, rows: seq<Iface>, ws: seq<Wanted>, noBmc: bool, n: nat): map<Id, Iface>
    requires n <= |rows|
  {
    if n == 0 then t
    else
      var u, i := LostTable(t, rows, ws, noBmc, n - 1), rows[n - 1];
      if Lost(i, ws, noBmc) && i.id in u then u[i.id := u[i.id].(cols := i.cols.(state := NotReported))] else u
  }

  lemma {:induction false} LostFold(m: map<Id, Iface>, acc: Acc, rows: seq<Iface>, ws: seq<Wanted>, noBmc: bool, n: nat)
    requires n <= |rows|
    ensures Fold(WriteIfaces, m, PlanLost(acc, rows, ws, noBmc, n).ops)
          == LostTable(Fold(WriteIfaces, m, acc.ops), rows, ws, noBmc, n)
  {
    if n > 0 {
      LostFold(m, acc, rows, ws, noBmc, n - 1);
      var a, i := PlanLost(acc, rows, ws, noBmc, n - 1), rows[n - 1];
      if Lost(i, ws, noBmc) {
        FoldAdd(WriteIfaces, m, a.ops, UpdateIface(i.(cols := i.cols.(state := NotReported)),
          [Audit(InterfaceNotReported, i.id)]));
      }
    }
  }

  /** Only lost rows change, and those only lose their state. */
  lemma {:induction false} LostTrack(t: map<Id, Iface>, rows: seq<Iface>, ws: seq<Wanted>, noBmc: bool, n: nat, i: Id)
    requires n <= |rows| && forall k :: 0 <= k < |rows| && Lost(rows[k], ws, noBmc) ==>
          rows[k].id in t && t[rows[k].id] == rows[k]
    ensures LostTable(t, rows, ws, noBmc, n).Keys == t.Keys
    ensures i in t && (exists k :: 0 <= k < n && rows[k].id == i && Lost(rows[k], ws, noBmc)) ==>
              LostTable(t, rows, ws, noBmc, n)[i] == t[i].(cols := t[i].cols.(state := NotReported))
    ensures i in t && !(exists k :: 0 <= k < n && rows[k].id == i && Lost(rows[k], ws, noBmc)) ==>
              LostTable(t, rows, ws, noBmc, n)[i] == t[i]
  {
    if n > 0 {
      LostTrack(t, rows, ws, noBmc, n - 1, i);
    }
  }

  // ---- together

  ghost function IfacesAfter(m: map<Id, Iface>, next: Id, rows: seq<Iface>, dev: Id, ws: seq<Wanted>, noBmc: bool):
    map<Id, Iface>
  {
    LostTable(WantedTable(m, next, rows, dev, ws, |ws|), rows, ws, noBmc, |rows|)
  }

  /** Lost rows were not touched by the first pass. */
  lemma LostUntouched(m: map<Id, Iface>, next: Id, rows: seq<Iface>, dev: Id, ws: seq<Wanted>, noBmc: bool)
    requires Start(m, next, rows, dev, ws)
    ensures var t := WantedTable(m, next, rows, dev, ws, |ws|);
            forall k :: 0 <= k < |rows| && Lost(rows[k], ws, noBmc) ==> rows[k].id in t && t[rows[k].id] == rows[k]
  {
    forall k | 0 <= k < |rows| && Lost(rows[k], ws, noBmc)
      ensures rows[k].id in WantedTable(m, next, rows, dev, ws, |ws|)
      ensures WantedTable(m, next, rows, dev, ws, |ws|)[rows[k].id] == rows[k]
    {
      assert rows[k] in rows && ws[..|ws|] == ws;
      TrackOld(m, next, rows, dev, ws, |ws|, rows[k].id);
    }
  }

  lemma RefreshOnce(c: IfaceCols, w: Wanted)
    ensures Refreshed(Refreshed(c, w), w) == Refreshed(c, w)
  {}

  lemma SameName(ws: seq<Wanted>, w: Wanted, w': Wanted)
    requires DistinctWanted(ws) && w in ws && w' in ws && w.name == w'.name
    ensures w == w'
  {}

  lemma AfterOk(m: map<Id, Iface>, next: Id, rows: seq<Iface>, dev: Id, ws: seq<Wanted>, noBmc: bool, i: Id)
    requires Start(m, next, rows, dev, ws) && i in IfacesAfter(m, next, rows, dev, ws, noBmc)
    ensures var t := IfacesAfter(m, next, rows, dev, ws, noBmc);
            && t[i].id == i && (i in m ==> t[i] == m[i].(cols := t[i].cols) && (m[i].device != dev ==> t[i] == m[i]))
            && (i !in m ==>
              next <= i < PlanWanted(next, rows, dev, ws, |ws|).next && t[i].device == dev && Names(ws, t[i].name))
            && (t[i].device == dev ==> IfaceOk(t[i], ws, noBmc))
  {
    var t0 := WantedTable(m, next, rows, dev, ws, |ws|);
    assert ws[..|ws|] == ws;
    LostUntouched(m, next, rows, dev, ws, noBmc);
    LostTrack(t0, rows, ws, noBmc, |rows|, i);
    if i in m {
      TrackOld(m, next, rows, dev, ws, |ws|, i);
      OldOk(m, rows, dev, ws, noBmc, i, IfacesAfter(m, next, rows, dev, ws, noBmc)[i]);
    } else {
      TrackNew(m, next, rows, dev, ws, |ws|, i);
      NewOk(rows, dev, ws, noBmc, i, t0[i], IfacesAfter(m, next, rows, dev, ws, noBmc)[i]);
    }
  }

  lemma OldOk(m: map<Id, Iface>, rows: seq<Iface>, dev: Id, ws: seq<Wanted>, noBmc: bool, i: Id, row: Iface)
    requires i in m && IfaceIds(m) && ListsIfaces(rows, m, dev) && DistinctWanted(ws) && ws[..|ws|] == ws
    requires var b := Became(m[i], dev, ws, |ws|);
             if exists k :: 0 <= k < |rows| && rows[k].id == i && Lost(rows[k], ws, noBmc)
             then row == b.(cols := b.cols.(state := NotReported)) else row == b
    ensures row == m[i].(cols := row.cols) && (m[i].device != dev ==> row == m[i])
    ensures row.device == dev ==> IfaceOk(row, ws, noBmc)
  {
    var f := WantedNamed(ws, |ws|, m[i].name);
    if m[i].device == dev {
      assert m[i] in rows;
      var k :| 0 <= k < |rows| && rows[k] == m[i];
      if f.Some? {
        RefreshOnce(m[i].cols, f.value);
        forall w | w in ws && w.name == m[i].name ensures w == f.value { SameName(ws, w, f.value); }
        assert Names(ws, m[i].name);
      }
    }
  }

  lemma NewOk(rows: seq<Iface>, dev: Id, ws: seq<Wanted>, noBmc: bool, i: Id, b: Iface, row: Iface)
    requires DistinctWanted(ws) && exists w :: w in ws && b == NewIface(i, dev, w)
    requires if exists k :: 0 <= k < |rows| && rows[k].id == i && Lost(rows[k], ws, noBmc)
             then (exists k :: 0 <= k < |rows| && rows[k] == b && Lost(rows[k], ws, noBmc))
               && row.device == dev else row == b
    ensures row == b && Names(ws, row.name) && IfaceOk(row, ws, noBmc)
  {
    var w :| w in ws && b == NewIface(i, dev, w);
    assert Names(ws, b.name);
    forall w' | w' in ws && w'.name == b.name ensures w' == w { SameName(ws, w', w); }
  }

  lemma AfterNames(m: map<Id, Iface>, next: Id, rows: seq<Iface>, dev: Id, ws: seq<Wanted>, noBmc: bool, w: Wanted)
    requires Start(m, next, rows, dev, ws) && w in ws
    ensures HasIface(IfacesAfter(m, next, rows, dev, ws, noBmc), dev, w.name)
  {
    var t := WantedTable(m, next, rows, dev, ws, |ws|);
    var k :| 0 <= k < |ws| && ws[k] == w;
    TrackNames(m, next, rows, dev, ws, |ws|, k);
    var i :| i in t && t[i].device == dev && t[i].name == w.name;
    LostUntouched(m, next, rows, dev, ws, noBmc);
    LostTrack(t, rows, ws, noBmc, |rows|, i);
    assert i in IfacesAfter(m, next, rows, dev, ws, noBmc);
  }

  /** The interfaces are as reported; existing rows keep their identity, other devices' rows everything. */
  ghost predicate IfacesReached(m: map<Id, Iface>, t: map<Id, Iface>, dev: Id, ws: seq<Wanted>, noBmc: bool) {
    && IfacesSettled(t, dev, ws, noBmc) && IfaceIds(t)
    && (forall i :: i in m ==> i in t && t[i] == m[i].(cols := t[i].cols))
    && (forall i :: i in m && m[i].device != dev ==> t[i] == m[i])
    && (forall i :: i in t && i !in m ==> t[i].device == dev)
  }

  /** The interface section of a plan settles the interfaces. */
  lemma IfacesSettle(m: map<Id, Iface>, st: State, r: Report, next: Id, dev: Id)
    requires Start(m, next, st.ifaces, dev, WantedIfaces(r))
    ensures IfacesReached(m, Fold(WriteIfaces, m, PlanIfaces(next, st, r, dev).ops), dev, WantedIfaces(r), r.bmc.None?)
  {
    var ws := WantedIfaces(r);
    var t := IfacesAfter(m, next, st.ifaces, dev, ws, r.bmc.None?);
    LostFold(m, PlanWanted(next, st.ifaces, dev, ws, |ws|), st.ifaces, ws, r.bmc.None?, |st.ifaces|);
    forall i | i in t ensures
      && t[i].id == i && (i in m ==> t[i] == m[i].(cols := t[i].cols) && (m[i].device != dev ==> t[i] == m[i]))
      && (i !in m ==> next <= i && t[i].device == dev)
      && (t[i].device == dev ==> IfaceOk(t[i], ws, r.bmc.None?))
    {
      AfterOk(m, next, st.ifaces, dev, ws, r.bmc.None?, i);
    }
    forall i | i in m ensures i in t {
      TrackOld(m, next, st.ifaces, dev, ws, |ws|, i);
      LostUntouched(m, next, st.ifaces, dev, ws, r.bmc.None?);
      LostTrack(WantedTable(m, next, st.ifaces, dev, ws, |ws|), st.ifaces, ws, r.bmc.None?, |st.ifaces|, i);
    }
    forall w | w in ws ensures HasIface(t, dev, w.name) { AfterNames(m, next, st.ifaces, dev, ws, r.bmc.None?, w); }
  }
}
