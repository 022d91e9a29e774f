/** The address section's writes: lawful, and creating a subnet for exactly the networks a report opens. */
module HostNewSubnets {
  import opened Wrappers
  import opened Ipnet
  import opened HostStore
  import opened HostReport
  import opened HostPlan
  import opened HostLoad
  import opened HostAddrs
  import opened HostLawful
  import opened HostOpened
  import HostPlaces
  import Placement

  /** The subnets consulted so far: the stored ones, then one for each opened network. */
  ghost predicate Consulted(base: seq<Placement.Candidate>, ds: seq<Cidr>, cands: seq<Placement.Candidate>) {
    && |cands| == |base| + |ds| && cands[..|base|] == base
    && forall k :: 0 <= k < |ds| ==> cands[|base| + k].cidr == Some(ds[k])
  }

  ghost predicate NamesUsed(subnets: map<Id, Subnet>, ds: seq<Cidr>, names: set<string>) {
    forall x :: x in names <==> LowerTaken(subnets, x) || exists d :: d in ds && x == Lower(NameOf(subnets, d))
  }

  /** An active subnet of host sync for the network. */
  predicate Creates(op: Op, d: Cidr) {
    && op.CreateSubnet? && op.subnet.cidr == Some(d)
    && op.subnet.admin == map["status" := "active", "created_by" := "host-sync", "origin" := "host_sync"]
  }

  /** The subnets written are those of the opened networks, under their names. */
  ghost predicate Written(subnets: map<Id, Subnet>, ds: seq<Cidr>, ops: seq<Op>) {
    && (forall op :: op in ops && op.CreateSubnet? ==>
          exists d :: d in ds && Creates(op, d) && op.subnet.name == NameOf(subnets, d))
    && (forall d :: d in ds ==> exists op :: op in ops && Creates(op, d))
  }

  ghost predicate Tracks(t: Store, base: seq<Placement.Candidate>, ds: seq<Cidr>, acc: AddrAcc) {
    Consulted(base, ds, acc.cands) && NamesUsed(t.subnets, ds, acc.names) && Written(t.subnets, ds, acc.ops)
  }

  /** The writes so far are lawful; addresses written were seen, ids lie below the next. */
  ghost predicate Tidy(t: Store, acc: AddrAcc) {
    && Lawful(t, acc.ops) && (forall i :: i in t.subnets ==> i < acc.next)
    && (forall op :: op in acc.ops && op.CreateAddr? ==> op.addr.text in acc.seen)
    && (forall op :: op in acc.ops && op.CreateSubnet? ==> op.subnet.id < acc.next)
    && (forall op :: op in acc.ops ==> op.CreateSubnet? || op.CreateAddr? || op.UpdateAddr?)
  }

  // ---- one claim

  /** A consulted subnet holds the address exactly when a stored or an opened one does. */
  lemma CandsHold(t: Store, rows: seq<Subnet>, ds: seq<Cidr>, cands: seq<Placement.Candidate>, a: Addr)
    requires ListsSubnets(rows, t.subnets) && Consulted(Cands(rows), ds, cands) && KeysAreIds(t)
    ensures (exists c :: c in cands && Placement.Holds(c, a)) <==> StoredHolds(t.subnets, a) || Covered(ds, a)
  {
    var base := Cands(rows);
    if c :| c in cands && Placement.Holds(c, a) {
      var k :| 0 <= k < |cands| && cands[k] == c;
      if k < |base| {
        assert base[k] == cands[..|base|][k] && rows[k] in rows;
        assert Placement.Holds(Placement.Candidate(rows[k].id, t.subnets[rows[k].id].cidr), a);
      } else {
        assert cands[|base| + (k - |base|)].cidr == Some(ds[k - |base|]);
      }
    }
    if i :| i in t.subnets && Placement.Holds(Placement.Candidate(i, t.subnets[i].cidr), a) {
      assert t.subnets[i] in rows;
      var k :| 0 <= k < |rows| && rows[k] == t.subnets[i];
      assert cands[k] == cands[..|base|][k] == base[k] == Placement.Candidate(i, t.subnets[i].cidr);
    }
    if d :| d in ds && ValidCidr(d) && Contains(Network(d), a) {
      var k :| 0 <= k < |ds| && ds[k] == d;
      assert Placement.Holds(cands[|base| + k], a);
    }
  }

  /** The planner's name for an opened network. */
  lemma SubnetNamed(t: Store, ds: seq<Cidr>, acc: AddrAcc, c: Claim, id: Id)
    requires Recorded(c) && NamesUsed(t.subnets, ds, acc.names) && !Covered(ds, c.addr.addr)
    ensures var s := SubnetFor(id, c.addr, acc.names);
            && s.id == id && s.cidr == Some(CidrOf(c)) && s.name == NameOf(t.subnets, CidrOf(c))
            && s.admin == map["status" := "active", "created_by" := "host-sync", "origin" := "host_sync"]
  {
    var x := CidrText(CidrOf(c));
    CidrTextChars(CidrOf(c));
    forall d | d in ds ensures x != Lower(NameOf(t.subnets, d)) { NamesDiffer(t.subnets, CidrOf(c), d); }
  }

  lemma NamesMore(subnets: map<Id, Subnet>, ds: seq<Cidr>, names: set<string>, d: Cidr)
    requires NamesUsed(subnets, ds, names)
    ensures NamesUsed(subnets, ds + [d], names + {Lower(NameOf(subnets, d))})
  {
    var more := ds + [d];
    assert d in more && forall e :: e in ds ==> e in more;
  }

  lemma WrittenMore(subnets: map<Id, Subnet>, ds: seq<Cidr>, ops: seq<Op>, d: Cidr, op: Op, last: Op)
    requires Written(subnets, ds, ops) && Creates(op, d) && op.subnet.name == NameOf(subnets, d) && !last.CreateSubnet?
    ensures Written(subnets, ds + [d], ops + [op] + [last])
  {
    var more, all := ds + [d], ops + [op] + [last];
    assert d in more && op in all;
    forall o | o in all && o.CreateSubnet?
      ensures exists e :: e in more && Creates(o, e) && o.subnet.name == NameOf(subnets, e)
    {
      if o in ops {
        var e :| e in ds && Creates(o, e) && o.subnet.name == NameOf(subnets, e);
        assert e in more;
      }
    }
    forall e | e in more ensures exists o :: o in all && Creates(o, e) {
      if e in ds {
        var o :| o in ops && Creates(o, e);
        assert o in all;
      }
    }
  }

  lemma WrittenOther(subnets: map<Id, Subnet>, ds: seq<Cidr>, ops: seq<Op>, last: Op)
    requires Written(subnets, ds, ops) && !last.CreateSubnet?
    ensures Written(subnets, ds, ops + [last])
  {
    forall e | e in ds ensures exists o :: o in ops + [last] && Creates(o, e) {
      var o :| o in ops && Creates(o, e);
      assert o in ops + [last];
    }
  }

  /** A claim that needs a network opens one. */
  lemma OpensTracked(t: Store, base: seq<Placement.Candidate>, ds: seq<Cidr>, acc: AddrAcc, dev: Id, c: Claim,
                     r: Report)
    requires Tracks(t, base, ds, acc) && Recorded(c) && !Covered(ds, c.addr.addr)
    requires Placement.MostSpecific(acc.cands, c.addr.addr).None?
    ensures Tracks(t, base, ds + [CidrOf(c)], CreateStep(acc, dev, c, r))
  {
    var d, s := CidrOf(c), SubnetFor(acc.next + 1, c.addr, acc.names);
    SubnetNamed(t, ds, acc, c, acc.next + 1);
    HostPlaces.CreateOps(acc, dev, c, r, s);
    var sub := CreateSubnet(s, [Audit(SubnetCreated, s.id)]);
    var op := CreateAddr(NewAddr(acc.next, s.id, dev, c, r), [Audit(AddressCreated, acc.next)]);
    WrittenMore(t.subnets, ds, acc.ops, d, sub, op);
    NamesMore(t.subnets, ds, acc.names, d);
    assert CreateStep(acc, dev, c, r).names == acc.names + {Lower(s.name)};
    ConsultedMore(base, ds, acc.cands, d, s.id);
  }

  lemma ConsultedMore(base: seq<Placement.Candidate>, ds: seq<Cidr>, cands: seq<Placement.Candidate>, d: Cidr, id: Id)
    requires Consulted(base, ds, cands)
    ensures Consulted(base, ds + [d], cands + [Placement.Candidate(id, Some(d))])
  {
    var more, all := ds + [d], cands + [Placement.Candidate(id, Some(d))];
    assert all[..|base|] == cands[..|base|];
    forall k | 0 <= k < |more| ensures all[|base| + k].cidr == Some(more[k]) {
      if k < |ds| { assert all[|base| + k] == cands[|base| + k]; }
    }
  }

  /** A claim that finds a subnet writes its row alone. */
  lemma PlacedOps(acc: AddrAcc, dev: Id, c: Claim, r: Report)
    requires Recorded(c) && Placement.MostSpecific(acc.cands, c.addr.addr).Some?
    ensures var b, m := CreateStep(acc, dev, c, r), Placement.MostSpecific(acc.cands, c.addr.addr).value;
            b == acc.(next := acc.next + 1, ops := acc.ops
                      + [CreateAddr(NewAddr(acc.next, m.id, dev, c, r), [Audit(AddressCreated, acc.next)])])
  {}

  lemma CreateTidy(t: Store, acc: AddrAcc, was: set<Text>, dev: Id, c: Claim, r: Report)
    requires Tidy(t, acc.(seen := was)) && acc.seen == was + {Key(c)} && Key(c) !in was && !HasAddr(t.addrs, Key(c))
    requires Recorded(c) && Placement.MostSpecific(acc.cands, c.addr.addr).Some?
    ensures Tidy(t, CreateStep(acc, dev, c, r))
  {
    var m := Placement.MostSpecific(acc.cands, c.addr.addr).value;
    PlacedOps(acc, dev, c, r);
    LawfulAdd(t, acc.ops, CreateAddr(NewAddr(acc.next, m.id, dev, c, r), [Audit(AddressCreated, acc.next)]));
  }

  /** A network not opened yet gets a name of its own. */
  lemma NewName(t: Store, ds: seq<Cidr>, ops: seq<Op>, d: Cidr, sub: Op)
    requires Written(t.subnets, ds, ops) && d !in ds && sub.CreateSubnet? && sub.subnet.name == NameOf(t.subnets, d)
    requires forall op :: op in ops ==> !op.ReplaceGuests? && (op.CreateSubnet? ==> op.subnet.id < sub.subnet.id)
    ensures forall a :: a in ops ==> Apart(t, a, sub)
  {
    forall a | a in ops ensures Apart(t, a, sub) {
      if a.CreateSubnet? {
        var e :| e in ds && Creates(a, e) && a.subnet.name == NameOf(t.subnets, e);
        NamesDiffer(t.subnets, e, d);
      }
    }
  }

  /** A subnet and the address it is for. */
  lemma PairTidy(t: Store, acc: AddrAcc, acc': AddrAcc, sub: Op, op: Op)
    requires Tidy(t, acc) && sub.CreateSubnet? && op.CreateAddr? && acc'.ops == acc.ops + [sub] + [op]
    requires acc.next <= sub.subnet.id < acc'.next && forall a :: a in acc.ops ==> Apart(t, a, sub)
    requires !HasAddr(t.addrs, op.addr.text) && op.addr.text !in acc.seen && acc'.seen == acc.seen + {op.addr.text}
    ensures Tidy(t, acc')
  {
    LawfulAdd(t, acc.ops, sub);
    LawfulAdd(t, acc.ops + [sub], op);
  }

  lemma OpenTidy(t: Store, ds: seq<Cidr>, acc: AddrAcc, was: set<Text>, dev: Id, c: Claim, r: Report)
    requires Tidy(t, acc.(seen := was)) && acc.seen == was + {Key(c)} && Key(c) !in was && !HasAddr(t.addrs, Key(c))
    requires Recorded(c) && Placement.MostSpecific(acc.cands, c.addr.addr).None? && !Covered(ds, c.addr.addr)
    requires NamesUsed(t.subnets, ds, acc.names) && Written(t.subnets, ds, acc.ops) && CidrOf(c) !in ds
    ensures Tidy(t, CreateStep(acc, dev, c, r))
  {
    var s := SubnetFor(acc.next + 1, c.addr, acc.names);
    SubnetNamed(t, ds, acc, c, acc.next + 1);
    var sub := CreateSubnet(s, [Audit(SubnetCreated, s.id)]);
    NewName(t, ds, acc.ops, CidrOf(c), sub);
    HostPlaces.CreateOps(acc, dev, c, r, s);
    PairTidy(t, acc.(seen := was), CreateStep(acc, dev, c, r), sub,
      CreateAddr(NewAddr(acc.next, s.id, dev, c, r), [Audit(AddressCreated, acc.next)]));
  }

  lemma UpdateTidy(t: Store, base: seq<Placement.Candidate>, ds: seq<Cidr>, acc: AddrAcc, was: set<Text>, row: AddrRow,
                   dev: Id, c: Claim, r: Report, p: Params)
    requires Tidy(t, acc.(seen := was)) && was <= acc.seen && row.id in t.addrs && Tracks(t, base, ds, acc)
    ensures Tidy(t, UpdateStep(acc, row, dev, c, r, p)) && Tracks(t, base, ds, UpdateStep(acc, row, dev, c, r, p))
  {
    var want := Resolved(row.cols, dev, c, r, p);
    if AddrChanged(row.cols, want) {
      var op := UpdateAddr(row.(cols := want.(lastSeen := r.collected)), AddrAudit(row.id, row.cols, want, dev));
      LawfulAdd(t, acc.ops, op);
      WrittenOther(t.subnets, ds, acc.ops, op);
    }
  }

  // ---- all claims

  ghost function OpenedBy(t: Store, x: Pass, n: nat): seq<Cidr>
    requires n <= |x.cs|
  {
    Opened(t.subnets, t.addrs, x.cs, n)
  }

  /** What the claims pass works on. */
  ghost predicate Works(t: Store, rows: seq<Subnet>, x: Pass) {
    && Start(x) && x.m == t.addrs && KeysAreIds(t) && ListsSubnets(rows, t.subnets)
    && x.acc0.cands == Cands(rows) && x.acc0.names == SubnetNames(rows)
    && (forall i :: i in t.subnets ==> i < x.acc0.next)
  }

  ghost predicate TrackedAt(t: Store, rows: seq<Subnet>, x: Pass, n: nat)
    requires n <= |x.cs|
  {
    Tracks(t, Cands(rows), OpenedBy(t, x, n), PlanAt(x, n)) && Tidy(t, PlanAt(x, n))
  }

  lemma TrackStart(t: Store, rows: seq<Subnet>, x: Pass)
    requires Works(t, rows, x)
    ensures TrackedAt(t, rows, x, 0)
  {
    assert x.acc0.cands[..|x.acc0.cands|] == x.acc0.cands;
    forall n ensures n in SubnetNames(rows) <==> LowerTaken(t.subnets, n) {
      if i :| i in t.subnets && Lower(t.subnets[i].name) == n { assert t.subnets[i] in rows; }
    }
  }

  /** One claim of the pass: what was opened before it, and after it. */
  lemma TrackClaim(t: Store, rows: seq<Subnet>, x: Pass, n: nat, n': nat)
    requires Works(t, rows, x) && n' == n + 1 <= |x.cs| && TrackedAt(t, rows, x, n)
    ensures TrackedAt(t, rows, x, n')
  {
    var c, a := x.cs[n], PlanAt(x, n);
    SeenDecided(x, n, Key(c));
    if !Recorded(c) {
      assert !Homeless(t.subnets, t.addrs, c);
    } else if Key(c) in a.seen {
      RepeatOpensNone(t.subnets, t.addrs, x.cs, n);
    } else {
      var row := FindAddr(x.rows, |x.rows|, Key(c));
      assert x.rows[..|x.rows|] == x.rows && c in x.cs;
      if row.None? {
        NoRow(x, c);
        TrackCreate(t, rows, x, n);
      } else {
        assert row.value in x.rows && row.value.id in t.addrs && t.addrs[row.value.id] == row.value;
        assert HasAddr(t.addrs, Key(c)) && !Homeless(t.subnets, t.addrs, c);
        UpdateTidy(t, Cands(rows), OpenedBy(t, x, n), a.(seen := a.seen + {Key(c)}), a.seen, row.value, x.dev, c, x.r,
          x.p);
      }
    }
  }

  lemma NoRow(x: Pass, c: Claim)
    requires Start(x) && c in x.cs && Recorded(c) && FindAddr(x.rows, |x.rows|, Key(c)).None?
    ensures !HasAddr(x.m, Key(c))
  {
    assert x.rows[..|x.rows|] == x.rows;
    forall i | i in x.m ensures x.m[i].text != Key(c) { FindsOnly(x, c, i); }
  }

  lemma TrackCreate(t: Store, rows: seq<Subnet>, x: Pass, n: nat)
    requires Works(t, rows, x) && n < |x.cs| && TrackedAt(t, rows, x, n)
    requires var c := x.cs[n];
             Recorded(c) && Key(c) !in PlanAt(x, n).seen && FindAddr(x.rows, |x.rows|, Key(c)).None?
               && !HasAddr(t.addrs, Key(c))
    ensures TrackedAt(t, rows, x, n + 1)
  {
    var c, a, ds := x.cs[n], PlanAt(x, n), OpenedBy(t, x, n);
    OpensWhere(t, rows, ds, a.cands, c.addr.addr);
    NextOpened(t, x, n);
    NextPlan(x, n);
    CreateTracked(t, Cands(rows), ds, a, x.dev, c, x.r);
  }

  lemma OpensWhere(t: Store, rows: seq<Subnet>, ds: seq<Cidr>, cands: seq<Placement.Candidate>, a: Addr)
    requires ListsSubnets(rows, t.subnets) && Consulted(Cands(rows), ds, cands) && KeysAreIds(t)
          && Placement.Recordable(a)
    ensures Placement.MostSpecific(cands, a).None? <==> !StoredHolds(t.subnets, a) && !Covered(ds, a)
  {
    CandsHold(t, rows, ds, cands, a);
    Placement.RecordableIsCanonical(a);
  }

  lemma NextOpened(t: Store, x: Pass, n: nat)
    requires n < |x.cs| && Recorded(x.cs[n]) && !HasAddr(t.addrs, Key(x.cs[n]))
    ensures var ds, c := OpenedBy(t, x, n), x.cs[n];
            OpenedBy(t, x, n + 1) == if !StoredHolds(t.subnets, c.addr.addr) && !Covered(ds, c.addr.addr)
              then ds + [CidrOf(c)] else ds
  {}

  lemma NextPlan(x: Pass, n: nat)
    requires n < |x.cs| && Recorded(x.cs[n]) && Key(x.cs[n]) !in PlanAt(x, n).seen
          && FindAddr(x.rows, |x.rows|, Key(x.cs[n])).None?
    ensures var a, c := PlanAt(x, n), x.cs[n];
            PlanAt(x, n + 1) == CreateStep(a.(seen := a.seen + {Key(c)}), x.dev, c, x.r)
  {}

  lemma CreateTracked(t: Store, base: seq<Placement.Candidate>, ds: seq<Cidr>, a: AddrAcc, dev: Id, c: Claim, r: Report)
    requires Tracks(t, base, ds, a) && Tidy(t, a) && Recorded(c) && Key(c) !in a.seen && !HasAddr(t.addrs, Key(c))
    requires Placement.MostSpecific(a.cands, c.addr.addr).None? ==> !Covered(ds, c.addr.addr)
    ensures var b := CreateStep(a.(seen := a.seen + {Key(c)}), dev, c, r);
            var opens := Placement.MostSpecific(a.cands, c.addr.addr).None?;
            Tracks(t, base, if opens then ds + [CidrOf(c)] else ds, b) && Tidy(t, b)
  {
    var a1 := a.(seen := a.seen + {Key(c)});
    if Placement.MostSpecific(a.cands, c.addr.addr).Some? {
      PlacedOps(a1, dev, c, r);
      CreateTidy(t, a1, a.seen, dev, c, r);
      WrittenOther(t.subnets, ds, a.ops, CreateStep(a1, dev, c, r).ops[|a.ops|]);
    } else {
      assert CidrOf(c) !in ds;
      OpensTracked(t, base, ds, a1, dev, c, r);
      OpenTidy(t, ds, a1, a.seen, dev, c, r);
    }
  }

  lemma {:induction false} TrackAll(t: Store, rows: seq<Subnet>, x: Pass, n: nat)
    requires Works(t, rows, x) && n <= |x.cs|
    ensures TrackedAt(t, rows, x, n)
  {
    if n == 0 {
      TrackStart(t, rows, x);
    } else {
      TrackAll(t, rows, x, n - 1);
      TrackClaim(t, rows, x, n - 1, n);
    }
  }

  ghost predicate AnyTakenTwice(subnets: map<Id, Subnet>, ds: seq<Cidr>) {
    exists d :: d in ds && NameTakenTwice(subnets, d)
  }

  ghost predicate AnyStopped(t: Store, ops: seq<Op>) {
    exists op :: op in ops && Stopped(t, op)
  }

  /** The writes are stopped exactly when an opened network's name is taken twice. */
  lemma StoppedByName(t: Store, ds: seq<Cidr>, ops: seq<Op>)
    requires Written(t.subnets, ds, ops)
    ensures AnyStopped(t, ops) <==> AnyTakenTwice(t.subnets, ds)
  {
    if AnyStopped(t, ops) {
      var op :| op in ops && Stopped(t, op);
      var d :| d in ds && Creates(op, d) && op.subnet.name == NameOf(t.subnets, d);
      NameStored(t.subnets, d);
    }
    if AnyTakenTwice(t.subnets, ds) {
      var d :| d in ds && NameTakenTwice(t.subnets, d);
      TakenStops(t, ds, ops, d);
    }
  }

  lemma TakenStops(t: Store, ds: seq<Cidr>, ops: seq<Op>, d: Cidr)
    requires Written(t.subnets, ds, ops) && d in ds && NameTakenTwice(t.subnets, d)
    ensures AnyStopped(t, ops)
  {
    var op :| op in ops && Creates(op, d);
    var e :| e in ds && Creates(op, e) && op.subnet.name == NameOf(t.subnets, e);
    NameStored(t.subnets, d);
    assert Stopped(t, op);
  }
}
