/** The address writes of a plan reach the reported state and leave nothing for a second plan to do. */
module HostAddrs {
  import opened Wrappers
  import opened HostStore
  import opened HostReport
  import opened HostPlan
  import opened HostLoad
  import opened HostTables
  import Placement

  // ---- which claim decides an address

  /** The first recorded claim of an address: later ones are ignored. */
  function Decides(cs: seq<Claim>, n: nat, text: Text): (f: Option<Claim>)
    requires n <= |cs|
    ensures f.Some? ==> f.value in cs && Recorded(f.value) && Key(f.value) == text
  {
    if n == 0 then None
    else
      var f := Decides(cs, n - 1, text);
      if f.Some? then f else if Recorded(cs[n - 1]) && Key(cs[n - 1]) == text then Some(cs[n - 1]) else None
  }

  lemma {:induction false} DecidesStable(cs: seq<Claim>, n: nat, k: nat, text: Text)
    requires n <= k <= |cs| && Decides(cs, n, text).Some?
    ensures Decides(cs, k, text) == Decides(cs, n, text)
    decreases k
  {
    if n < k { DecidesStable(cs, n, k - 1, text); }
  }

  lemma {:induction false} DecidedIfClaimed(cs: seq<Claim>, n: nat, k: nat)
    requires k < n <= |cs| && Recorded(cs[k])
    ensures Decides(cs, n, Key(cs[k])).Some?
  {
    if k < n - 1 { DecidedIfClaimed(cs, n - 1, k); }
  }

  // ---- one row

  /** The row after the claims. */
  function Became(a: AddrRow, dev: Id, f: Option<Claim>, r: Report, p: Params, clock: Time): AddrRow {
    if f.None? then a
    else
      var want := Resolved(a.cols, dev, f.value, r, p);
      if AddrChanged(a.cols, want) then PutAddr(a, a.(cols := want.(lastSeen := r.collected)), clock) else a
  }

  function Inserted(id: Id, subnet: Id, dev: Id, c: Claim, r: Report, clock: Time): AddrRow {
    NewAddr(id, subnet, dev, c, r).(mac := AgentMac(c.iface.mac, clock))
  }

  predicate BoundTo(a: AddrRow, dev: Id, c: Claim, r: Report) {
    && a.cols.device == dev && a.cols.state == Reported && a.cols.iface == c.iface.name && a.cols.mac == c.iface.mac
    && a.cols.hostname == HostnameFor(c, r) && a.cols.primary == Primary(c, r)
  }

  /** Planning the claim again changes nothing. */
  predicate Steady(a: AddrRow, dev: Id, f: Option<Claim>, r: Report, p: Params) {
    f.Some? ==> !AddrChanged(a.cols, Resolved(a.cols, dev, f.value, r, p)) && BoundTo(a, dev, f.value, r)
  }

  lemma BecameSteady(a: AddrRow, dev: Id, f: Option<Claim>, r: Report, p: Params, clock: Time)
    requires dev != 0 && p.conflictWindow >= 0
    ensures Steady(Became(a, dev, f, r, p, clock), dev, f, r, p)
  {}

  lemma InsertedSteady(id: Id, subnet: Id, dev: Id, c: Claim, r: Report, p: Params, clock: Time)
    requires dev != 0
    ensures Steady(Inserted(id, subnet, dev, c, r, clock), dev, Some(c), r, p)
  {}

  // ---- the claims pass

  ghost predicate AddrIds(m: map<Id, AddrRow>) {
    forall i :: i in m ==> m[i].id == i
  }

  /** The inputs of one pass over the reported addresses. */
  datatype Pass = Pass(m: map<Id, AddrRow>, acc0: AddrAcc, rows: seq<AddrRow>, dev: Id, asked: set<Text>,
                       cs: seq<Claim>, r: Report, p: Params, clock: Time)

  ghost predicate Start(x: Pass) {
    && AddrIds(x.m) && UniqueTexts(x.m) && ListsAddrs(x.rows, x.m, x.dev, x.asked) && x.dev != 0
    && (forall c :: c in x.cs && Recorded(c) ==> Key(c) in x.asked)
    && (forall i :: i in x.m ==> i < x.acc0.next)
    && x.acc0.seen == {} && x.acc0.ops == []
  }

  function PlanAt(x: Pass, n: nat): AddrAcc
    requires n <= |x.cs|
  {
    PlanClaims(x.acc0, x.rows, x.dev, x.cs, x.r, x.p, n)
  }

  /** The table after the first `n` claims. */
  ghost function TableAt(x: Pass, n: nat): map<Id, AddrRow>
    requires n <= |x.cs|
  {
    Fold(WriteAddrs(x.clock), x.m, PlanAt(x, n).ops)
  }

  lemma {:induction false} SeenDecided(x: Pass, n: nat, text: Text)
    requires n <= |x.cs| && x.acc0.seen == {}
    ensures text in PlanAt(x, n).seen <==> Decides(x.cs, n, text).Some?
  {
    if n > 0 { SeenDecided(x, n - 1, text); }
  }

  lemma PlaceWrites(m: map<Id, AddrRow>, acc: AddrAcc, c: RAddr, clock: Time)
    requires ValidAddr(c.addr) && Placement.Recordable(c.addr)
    ensures Fold(WriteAddrs(clock), m, Place(acc, c).1.ops) == Fold(WriteAddrs(clock), m, acc.ops)
  {
    var acc1 := Place(acc, c).1;
    if acc1.ops != acc.ops {
      var op := acc1.ops[|acc.ops|];
      assert acc1.ops == acc.ops + [op];
      FoldAdd(WriteAddrs(clock), m, acc.ops, op);
    }
  }

  /** Creating a row writes exactly that row, whatever subnet it needed. */
  lemma CreateWrites(m: map<Id, AddrRow>, acc: AddrAcc, dev: Id, c: Claim, r: Report, clock: Time) returns (subnet: Id)
    requires Recorded(c)
    ensures var t, t' := Fold(WriteAddrs(clock), m, acc.ops),
                Fold(WriteAddrs(clock), m, CreateStep(acc, dev, c, r).ops);
            t' == t[acc.next := Inserted(acc.next, subnet, dev, c, r, clock)]
  {
    var placed := Place(acc.(next := acc.next + 1), c.addr);
    subnet := placed.0;
    PlaceWrites(m, acc.(next := acc.next + 1), c.addr, clock);
    var op := CreateAddr(NewAddr(acc.next, subnet, dev, c, r), [Audit(AddressCreated, acc.next)]);
    assert CreateStep(acc, dev, c, r).ops == placed.1.ops + [op];
    FoldAdd(WriteAddrs(clock), m, placed.1.ops, op);
  }

  lemma UpdateWrites(m: map<Id, AddrRow>, acc: AddrAcc, row: AddrRow, dev: Id, c: Claim, r: Report, p: Params,
                     clock: Time)
    ensures var t, t' := Fold(WriteAddrs(clock), m, acc.ops),
                Fold(WriteAddrs(clock), m, UpdateStep(acc, row, dev, c, r, p).ops);
            && t'.Keys == t.Keys && (forall i :: i in t && i != row.id ==> t'[i] == t[i])
            && (row.id in t && t[row.id] == row ==> t'[row.id] == Became(row, dev, Some(c), r, p, clock))
  {
    var want := Resolved(row.cols, dev, c, r, p);
    if AddrChanged(row.cols, want) {
      FoldAdd(WriteAddrs(clock), m, acc.ops, UpdateAddr(row.(cols := want.(lastSeen := r.collected)),
        AddrAudit(row.id, row.cols, want, dev)));
    }
  }

  /** How one claim acts on the table. */
  datatype Act = Skip | Create(subnet: Id) | Update(row: AddrRow)

  /** The tables and next ids along the claims, and what each claim did. */
  datatype Run = Run(tables: seq<map<Id, AddrRow>>, nexts: seq<Id>, acts: seq<Act>)

  /** Claim `n` took the table from `t` to `t'`. */
  ghost predicate Acts(x: Pass, n: nat, t: map<Id, AddrRow>, t': map<Id, AddrRow>, next: Id, next': Id, act: Act)
    requires n < |x.cs|
  {
    var c := x.cs[n];
    var row := FindAddr(x.rows, |x.rows|, Key(c));
    && (act.Skip? <==> !Recorded(c) || Decides(x.cs, n, Key(c)).Some?)
    && (act.Skip? ==> t' == t)
    && (act.Create? ==>
      row.None? && t' == t[next := Inserted(next, act.subnet, x.dev, c, x.r, x.clock)] && next < next')
    && (act.Update? ==> row == Some(act.row) && t'.Keys == t.Keys && forall i :: i in t && i != act.row.id ==>
      t'[i] == t[i])
    && (act.Update? && act.row.id in t && t[act.row.id] == act.row ==>
          t'[act.row.id] == Became(act.row, x.dev, Some(c), x.r, x.p, x.clock))
    && next <= next'
  }

  ghost predicate Follows(x: Pass, run: Run, n: nat) {
    && n <= |x.cs| && |run.tables| == |run.nexts| == n + 1 && |run.acts| == n
    && run.tables[0] == x.m && run.nexts[0] == x.acc0.next
    && forall k :: 0 <= k < n ==>
         Acts(x, k, run.tables[k], run.tables[k + 1], run.nexts[k], run.nexts[k + 1], run.acts[k])
  }

  lemma ClaimActs(x: Pass, n: nat) returns (act: Act)
    requires n < |x.cs| && x.acc0.seen == {}
    ensures Acts(x, n, TableAt(x, n), TableAt(x, n + 1), PlanAt(x, n).next, PlanAt(x, n + 1).next, act)
  {
    var c, a := x.cs[n], PlanAt(x, n);
    SeenDecided(x, n, Key(c));
    if !Recorded(c) || Key(c) in a.seen {
      act := Skip;
    } else {
      var a1 := a.(seen := a.seen + {Key(c)});
      var row := FindAddr(x.rows, |x.rows|, Key(c));
      if row.None? {
        var subnet := CreateWrites(x.m, a1, x.dev, c, x.r, x.clock);
        act := Create(subnet);
      } else {
        UpdateWrites(x.m, a1, row.value, x.dev, c, x.r, x.p, x.clock);
        act := Update(row.value);
      }
    }
  }

  lemma {:induction false} RunOf(x: Pass, n: nat) returns (run: Run)
    requires n <= |x.cs| && x.acc0.seen == {} && x.acc0.ops == []
    ensures Follows(x, run, n) && run.tables[n] == TableAt(x, n) && run.nexts[n] == PlanAt(x, n).next
  {
    if n == 0 {
      run := Run([x.m], [x.acc0.next], []);
    } else {
      var prev := RunOf(x, n - 1);
      var act := ClaimActs(x, n - 1);
      run := Run(prev.tables + [TableAt(x, n)], prev.nexts + [PlanAt(x, n).next], prev.acts + [act]);
      FollowsMore(x, prev, run, n);
    }
  }

  lemma FollowsMore(x: Pass, prev: Run, run: Run, n: nat)
    requires 0 < n <= |x.cs| && Follows(x, prev, n - 1) && |run.tables| == |run.nexts| == n + 1 && |run.acts| == n
    requires run.tables[..n] == prev.tables && run.nexts[..n] == prev.nexts && run.acts[..n - 1] == prev.acts
    requires Acts(x, n - 1, prev.tables[n - 1], run.tables[n], prev.nexts[n - 1], run.nexts[n], run.acts[n - 1])
    ensures Follows(x, run, n)
  {
    forall k | 0 <= k < n ensures Acts(x, k, run.tables[k], run.tables[k + 1], run.nexts[k], run.nexts[k + 1],
      run.acts[k]) {
      assert run.tables[k] == prev.tables[k] && run.nexts[k] == prev.nexts[k];
      if k < n - 1 {
        assert run.tables[k + 1] == prev.tables[k + 1] && run.nexts[k + 1] == prev.nexts[k + 1]
          && run.acts[k] == prev.acts[k];
      }
    }
  }

  lemma ActsAt(x: Pass, run: Run, n: nat, k: nat)
    requires Follows(x, run, n) && 0 < k <= n
    ensures Acts(x, k - 1, run.tables[k - 1], run.tables[k], run.nexts[k - 1], run.nexts[k], run.acts[k - 1])
    ensures run.acts[k - 1].Update? ==> run.acts[k - 1].row in x.rows
  {
    var j := k - 1;
    assert Acts(x, j, run.tables[j], run.tables[j + 1], run.nexts[j], run.nexts[j + 1], run.acts[j]);
    assert x.rows[..|x.rows|] == x.rows;
  }

  lemma {:induction false} NextGrows(x: Pass, run: Run, n: nat, k: nat)
    requires Follows(x, run, n) && k <= n
    ensures x.acc0.next <= run.nexts[k]
  {
    if k > 0 {
      NextGrows(x, run, n, k - 1);
      ActsAt(x, run, n, k);
    }
  }

  /** The row a claim finds is the one with its address. */
  lemma FindsOnly(x: Pass, c: Claim, i: Id)
    requires Start(x) && c in x.cs && Recorded(c) && i in x.m
    ensures var row := FindAddr(x.rows, |x.rows|, Key(c));
            && (row.Some? ==> row.value.id in x.m && x.m[row.value.id] == row.value)
            && (x.m[i].text == Key(c) <==> row == Some(x.m[i]))
            && (row.Some? && row.value.id == i ==> x.m[i].text == Key(c))
  {
    assert x.rows[..|x.rows|] == x.rows;
    if x.m[i].text == Key(c) { assert x.m[i] in x.rows; }
  }

  lemma {:induction false} TrackOld(x: Pass, run: Run, n: nat, k: nat, i: Id)
    requires Start(x) && Follows(x, run, n) && k <= n && i in x.m
    ensures i in run.tables[k]
    ensures run.tables[k][i] == Became(x.m[i], x.dev, Decides(x.cs, k, x.m[i].text), x.r, x.p, x.clock)
  {
    if k > 0 {
      TrackOld(x, run, n, k - 1, i);
      NextGrows(x, run, n, k - 1);
      ActsAt(x, run, n, k);
      if !run.acts[k - 1].Skip? {
        FindsOnly(x, x.cs[k - 1], i);
      }
    }
  }

  /** A created row belongs to the claim that decides its address. */
  lemma {:induction false} TrackNew(x: Pass, run: Run, n: nat, k: nat, i: Id) returns (subnet: Id)
    requires Start(x) && Follows(x, run, n) && k <= n && i in run.tables[k] && i !in x.m
    ensures x.acc0.next <= i < run.nexts[k]
    ensures var row := run.tables[k][i];
            var f := Decides(x.cs, k, row.text);
            f.Some? && row == Inserted(i, subnet, x.dev, f.value, x.r, x.clock)
              && forall j :: j in x.m ==> x.m[j].text != row.text
  {
    assert k > 0;
    var act := run.acts[k - 1];
    NextGrows(x, run, n, k - 1);
    ActsAt(x, run, n, k);
    if !act.Skip? {
      forall j | j in x.m ensures act.Create? ==> x.m[j].text != Key(x.cs[k - 1]) { FindsOnly(x, x.cs[k - 1], j); }
    }
    if act.Create? && i == run.nexts[k - 1] {
      subnet := act.subnet;
    } else {
      subnet := TrackNew(x, run, n, k - 1, i);
    }
  }

  lemma KeepText(x: Pass, run: Run, n: nat, k: nat, i: Id)
    requires Start(x) && Follows(x, run, n) && 0 < k <= n && i in run.tables[k - 1]
    ensures i in run.tables[k] && run.tables[k][i].text == run.tables[k - 1][i].text
  {
    if i in x.m {
      TrackOld(x, run, n, k - 1, i);
      TrackOld(x, run, n, k, i);
    } else {
      var subnet := TrackNew(x, run, n, k - 1, i);
      ActsAt(x, run, n, k);
    }
  }

  /** Every decided address has a row. */
  lemma {:induction false} TrackTexts(x: Pass, run: Run, n: nat, k: nat, text: Text)
    requires Start(x) && Follows(x, run, n) && k <= n && Decides(x.cs, k, text).Some?
    ensures HasAddr(run.tables[k], text)
  {
    var act := run.acts[k - 1];
    ActsAt(x, run, n, k);
    if Decides(x.cs, k - 1, text).Some? {
      TrackTexts(x, run, n, k - 1, text);
      var i :| i in run.tables[k - 1] && run.tables[k - 1][i].text == text;
      KeepText(x, run, n, k, i);
      assert i in run.tables[k];
    } else if act.Create? {
      assert run.nexts[k - 1] in run.tables[k];
    } else {
      TrackOld(x, run, n, k, act.row.id);
      assert act.row.id in run.tables[k];
    }
  }

  /** No address gets two rows. */
  lemma TextsUnique(x: Pass, run: Run, n: nat, i: Id, j: Id)
    requires Start(x) && Follows(x, run, n) && i in run.tables[n] && j in run.tables[n]
    requires run.tables[n][i].text == run.tables[n][j].text
    ensures i == j
  {
    if i in x.m { TrackOld(x, run, n, n, i); } else { var _ := TrackNew(x, run, n, n, i); }
    if j in x.m { TrackOld(x, run, n, n, j); } else { var _ := TrackNew(x, run, n, n, j); }
    if i !in x.m && j !in x.m { NewUnique(x, run, n, n, i, j); }
  }

  lemma {:induction false} NewUnique(x: Pass, run: Run, n: nat, k: nat, i: Id, j: Id)
    requires Start(x) && Follows(x, run, n) && k <= n && i in run.tables[k] && j in run.tables[k] && i !in x.m
          && j !in x.m
    requires run.tables[k][i].text == run.tables[k][j].text
    ensures i == j
  {
    assert k > 0;
    var t, act := run.tables[k - 1], run.acts[k - 1];
    ActsAt(x, run, n, k);
    if i in t { KeepText(x, run, n, k, i); var _ := TrackNew(x, run, n, k - 1, i); }
    if j in t { KeepText(x, run, n, k, j); var _ := TrackNew(x, run, n, k - 1, j); }
    if i in t && j in t { NewUnique(x, run, n, k - 1, i, j); }
  }

  // ---- the release pass

  /** Ours and reported, but no claim decides it. */
  predicate Stray(a: AddrRow, dev: Id, cs: seq<Claim>, noBmc: bool) {
    Decides(cs, |cs|, a.text).None? && a.cols.device == dev && a.cols.state == Reported
      && !(noBmc && IsBMCName(a.cols.iface))
  }

  ghost function ReleaseTable(t: map<Id, AddrRow>, rows: seq<AddrRow>, dev: Id, cs: seq<Claim>, noBmc: bool, n: nat):
    map<Id, AddrRow>
    requires n <= |rows|
  {
    if n == 0 then t
    else
      var u, a := ReleaseTable(t, rows, dev, cs, noBmc, n - 1), rows[n - 1];
      if Stray(a, dev, cs, noBmc) && a.id in u then u[a.id := u[a.id].(cols := Released(a, dev).cols)] else u
  }

  lemma {:induction false} ReleaseFold(m: map<Id, AddrRow>, acc: Acc, rows: seq<AddrRow>, dev: Id, cs: seq<Claim>,
                                       seen: set<Text>, noBmc: bool, clock: Time, n: nat)
    requires n <= |rows| && forall text :: text in seen <==> Decides(cs, |cs|, text).Some?
    ensures Fold(WriteAddrs(clock), m, PlanReleases(acc, rows, dev, seen, noBmc, n).ops)
         == ReleaseTable(Fold(WriteAddrs(clock), m, acc.ops), rows, dev, cs, noBmc, n)
  {
    if n > 0 {
      ReleaseFold(m, acc, rows, dev, cs, seen, noBmc, clock, n - 1);
      var a := rows[n - 1];
      if Gone(a, dev, seen, noBmc) {
        FoldAdd(WriteAddrs(clock), m, PlanReleases(acc, rows, dev, seen, noBmc, n - 1).ops,
          UpdateAddr(Released(a, dev), [Audit(AddressReleased, a.id)]));
      }
    }
  }

  lemma {:induction false} ReleaseTrack(t: map<Id, AddrRow>, rows: seq<AddrRow>, dev: Id, cs: seq<Claim>, noBmc: bool,
                                        n: nat, i: Id)
    requires n <= |rows| && forall k :: 0 <= k < |rows| && Stray(rows[k], dev, cs, noBmc) ==>
          rows[k].id in t && t[rows[k].id] == rows[k]
    ensures ReleaseTable(t, rows, dev, cs, noBmc, n).Keys == t.Keys
    ensures i in t && (exists k :: 0 <= k < n && rows[k].id == i && Stray(rows[k], dev, cs, noBmc)) ==>
              ReleaseTable(t, rows, dev, cs, noBmc, n)[i] == Released(t[i], dev)
    ensures i in t && !(exists k :: 0 <= k < n && rows[k].id == i && Stray(rows[k], dev, cs, noBmc)) ==>
              ReleaseTable(t, rows, dev, cs, noBmc, n)[i] == t[i]
  {
    if n > 0 { ReleaseTrack(t, rows, dev, cs, noBmc, n - 1, i); }
  }

  // ---- the reported state

  ghost predicate AddrOk(a: AddrRow, dev: Id, cs: seq<Claim>, r: Report, p: Params) {
    Steady(a, dev, Decides(cs, |cs|, a.text), r, p) && !Stray(a, dev, cs, r.bmc.None?)
  }

  /** Every recorded address has its row, bound and steady; nothing else of ours is left reported. */
  ghost predicate AddrsSettled(m: map<Id, AddrRow>, dev: Id, cs: seq<Claim>, r: Report, p: Params) {
    && (forall c :: c in cs && Recorded(c) ==> HasAddr(m, Key(c)))
    && (forall i :: i in m ==> AddrOk(m[i], dev, cs, r, p))
  }

  /** The table after both passes. */
  ghost function AddrsAfter(x: Pass): map<Id, AddrRow> {
    ReleaseTable(TableAt(x, |x.cs|), x.rows, x.dev, x.cs, x.r.bmc.None?, |x.rows|)
  }

  lemma StraysUntouched(x: Pass, run: Run)
    requires Start(x) && Follows(x, run, |x.cs|)
    ensures forall k :: 0 <= k < |x.rows| && Stray(x.rows[k], x.dev, x.cs, x.r.bmc.None?) ==>
              x.rows[k].id in run.tables[|x.cs|] && run.tables[|x.cs|][x.rows[k].id] == x.rows[k]
  {
    forall k | 0 <= k < |x.rows| && Stray(x.rows[k], x.dev, x.cs, x.r.bmc.None?)
      ensures x.rows[k].id in run.tables[|x.cs|] && run.tables[|x.cs|][x.rows[k].id] == x.rows[k]
    {
      assert x.rows[k] in x.rows;
      TrackOld(x, run, |x.cs|, |x.cs|, x.rows[k].id);
    }
  }

  /** What each row of the final table is. */
  lemma AfterRow(x: Pass, i: Id)
    requires Start(x) && x.p.conflictWindow >= 0 && i in AddrsAfter(x)
    ensures var a := AddrsAfter(x)[i];
            && a.id == i && AddrOk(a, x.dev, x.cs, x.r, x.p)
            && (i in x.m ==> a == x.m[i].(cols := a.cols, mac := a.mac))
            && (i in x.m && x.m[i].cols.device != x.dev && Decides(x.cs, |x.cs|, x.m[i].text).None? ==> a == x.m[i])
            && (i !in x.m ==> x.acc0.next <= i && a.cols.device == x.dev)
            && (i in TableAt(x, |x.cs|) && a.text == TableAt(x, |x.cs|)[i].text)
  {
    var n, noBmc := |x.cs|, x.r.bmc.None?;
    var run := RunOf(x, n);
    var t := run.tables[n];
    StraysUntouched(x, run);
    ReleaseTrack(t, x.rows, x.dev, x.cs, noBmc, |x.rows|, i);
    if i in x.m {
      TrackOld(x, run, n, n, i);
      OldRow(x, i, t[i], AddrsAfter(x)[i]);
    } else {
      var subnet := TrackNew(x, run, n, n, i);
      InsertedSteady(i, subnet, x.dev, Decides(x.cs, n, t[i].text).value, x.r, x.p, x.clock);
    }
  }

  lemma OldRow(x: Pass, i: Id, b: AddrRow, a: AddrRow)
    requires Start(x) && x.p.conflictWindow >= 0 && i in x.m
    requires b == Became(x.m[i], x.dev, Decides(x.cs, |x.cs|, x.m[i].text), x.r, x.p, x.clock)
    requires if exists k :: 0 <= k < |x.rows| && x.rows[k].id == i && Stray(x.rows[k], x.dev, x.cs, x.r.bmc.None?)
             then a == Released(b, x.dev) else a == b
    ensures a.id == i && AddrOk(a, x.dev, x.cs, x.r, x.p) && a == x.m[i].(cols := a.cols, mac := a.mac)
    ensures x.m[i].cols.device != x.dev && Decides(x.cs, |x.cs|, x.m[i].text).None? ==> a == x.m[i]
  {
    BecameSteady(x.m[i], x.dev, Decides(x.cs, |x.cs|, x.m[i].text), x.r, x.p, x.clock);
    if x.m[i].cols.device == x.dev {
      assert x.m[i] in x.rows;
      var k :| 0 <= k < |x.rows| && x.rows[k] == x.m[i];
    }
    if k :| 0 <= k < |x.rows| && x.rows[k].id == i && Stray(x.rows[k], x.dev, x.cs, x.r.bmc.None?) {
      assert x.rows[k] in x.rows;
    }
  }

  lemma AfterHas(x: Pass, c: Claim)
    requires Start(x) && c in x.cs && Recorded(c)
    ensures HasAddr(AddrsAfter(x), Key(c))
  {
    var n := |x.cs|;
    var run := RunOf(x, n);
    var k :| 0 <= k < n && x.cs[k] == c;
    DecidedIfClaimed(x.cs, n, k);
    TrackTexts(x, run, n, n, Key(c));
    var i :| i in run.tables[n] && run.tables[n][i].text == Key(c);
    StraysUntouched(x, run);
    ReleaseTrack(run.tables[n], x.rows, x.dev, x.cs, x.r.bmc.None?, |x.rows|, i);
    assert i in AddrsAfter(x);
  }

  lemma AfterUnique(x: Pass, i: Id, j: Id)
    requires Start(x) && x.p.conflictWindow >= 0 && i in AddrsAfter(x) && j in AddrsAfter(x)
    requires AddrsAfter(x)[i].text == AddrsAfter(x)[j].text
    ensures i == j
  {
    AfterRow(x, i);
    AfterRow(x, j);
    var run := RunOf(x, |x.cs|);
    TextsUnique(x, run, |x.cs|, i, j);
  }

  /** The reported end state, and what it leaves alone. */
  ghost predicate Reached(m: map<Id, AddrRow>, t: map<Id, AddrRow>, next: Id, dev: Id, cs: seq<Claim>, r: Report,
                          p: Params) {
    && AddrsSettled(t, dev, cs, r, p) && AddrIds(t) && UniqueTexts(t)
    && (forall i :: i in m ==> i in t && t[i] == m[i].(cols := t[i].cols, mac := t[i].mac))
    && (forall i :: i in m && m[i].cols.device != dev && Decides(cs, |cs|, m[i].text).None? ==> t[i] == m[i])
    && (forall i :: i in t && i !in m ==> next <= i)
  }

  lemma KeysKept(x: Pass, i: Id)
    requires Start(x) && i in x.m
    ensures i in AddrsAfter(x)
  {
    var run := RunOf(x, |x.cs|);
    TrackOld(x, run, |x.cs|, |x.cs|, i);
    StraysUntouched(x, run);
    ReleaseTrack(run.tables[|x.cs|], x.rows, x.dev, x.cs, x.r.bmc.None?, |x.rows|, i);
  }

  lemma AfterReached(x: Pass)
    requires Start(x) && x.p.conflictWindow >= 0
    ensures Reached(x.m, AddrsAfter(x), x.acc0.next, x.dev, x.cs, x.r, x.p)
  {
    var t := AddrsAfter(x);
    forall i | i in t
      ensures t[i].id == i && AddrOk(t[i], x.dev, x.cs, x.r, x.p) && (i !in x.m ==> x.acc0.next <= i)
      ensures i in x.m ==> t[i] == x.m[i].(cols := t[i].cols, mac := t[i].mac)
      ensures i in x.m && x.m[i].cols.device != x.dev && Decides(x.cs, |x.cs|, x.m[i].text).None? ==> t[i] == x.m[i]
    {
      AfterRow(x, i);
    }
    forall i | i in x.m ensures i in t { KeysKept(x, i); }
    forall c | c in x.cs && Recorded(c) ensures HasAddr(t, Key(c)) { AfterHas(x, c); }
    forall i, j | i in t && j in t && t[i].text == t[j].text ensures i == j { AfterUnique(x, i, j); }
  }

  // ---- settled rows plan nothing

  lemma {:induction false} FirstDecides(cs: seq<Claim>, n: nat)
    requires 0 < n <= |cs| && Recorded(cs[n - 1]) && Decides(cs, n - 1, Key(cs[n - 1])).None?
    ensures Decides(cs, |cs|, Key(cs[n - 1])) == Some(cs[n - 1])
  {
    DecidesStable(cs, n, |cs|, Key(cs[n - 1]));
  }

  lemma SettledFound(x: Pass, n: nat)
    requires AddrIds(x.m) && ListsAddrs(x.rows, x.m, x.dev, x.asked) && AddrsSettled(x.m, x.dev, x.cs, x.r, x.p)
    requires forall c :: c in x.cs && Recorded(c) ==> Key(c) in x.asked
    requires 0 < n <= |x.cs| && Recorded(x.cs[n - 1]) && Decides(x.cs, n - 1, Key(x.cs[n - 1])).None?
    ensures var row := FindAddr(x.rows, |x.rows|, Key(x.cs[n - 1]));
            row.Some? && !AddrChanged(row.value.cols, Resolved(row.value.cols, x.dev, x.cs[n - 1], x.r, x.p))
  {
    var c := x.cs[n - 1];
    var i :| i in x.m && x.m[i].text == Key(c);
    assert x.m[i] in x.rows && x.rows[..|x.rows|] == x.rows;
    FirstDecides(x.cs, n);
    var row := FindAddr(x.rows, |x.rows|, Key(c)).value;
    assert AddrOk(x.m[row.id], x.dev, x.cs, x.r, x.p);
  }

  lemma {:induction false} SettledClaims(x: Pass, n: nat)
    requires AddrIds(x.m) && ListsAddrs(x.rows, x.m, x.dev, x.asked) && AddrsSettled(x.m, x.dev, x.cs, x.r, x.p)
    requires forall c :: c in x.cs && Recorded(c) ==> Key(c) in x.asked
    requires n <= |x.cs| && x.acc0.seen == {}
    ensures PlanAt(x, n) == x.acc0.(seen := PlanAt(x, n).seen)
  {
    if n > 0 {
      SettledClaims(x, n - 1);
      var c := x.cs[n - 1];
      SeenDecided(x, n - 1, Key(c));
      if Recorded(c) && Decides(x.cs, n - 1, Key(c)).None? {
        SettledFound(x, n);
      }
    }
  }

  lemma {:induction false} SettledReleases(m: map<Id, AddrRow>, rows: seq<AddrRow>, dev: Id, asked: set<Text>,
                                           cs: seq<Claim>, seen: set<Text>, r: Report, p: Params, acc: Acc, n: nat)
    requires ListsAddrs(rows, m, dev, asked) && AddrsSettled(m, dev, cs, r, p) && n <= |rows|
    requires forall text :: text in seen <==> Decides(cs, |cs|, text).Some?
    ensures PlanReleases(acc, rows, dev, seen, r.bmc.None?, n) == acc
  {
    if n > 0 {
      SettledReleases(m, rows, dev, asked, cs, seen, r, p, acc, n - 1);
      assert rows[n - 1] in rows;
      assert AddrOk(m[rows[n - 1].id], dev, cs, r, p);
    }
  }
}
