/** Where a plan puts new addresses, and the subnets it creates for them. */
module HostPlaces {
  import opened Wrappers
  import opened Ipnet
  import opened HostStore
  import opened HostReport
  import opened HostPlan
  import FreeSearch
  import Placement

  /** The subnets the writes create, in order. */
  function Planned(ops: seq<Op>): seq<Placement.Candidate> {
    if ops == [] then []
    else
      var op := ops[|ops| - 1];
      var rest := Planned(ops[..|ops| - 1]);
      if op.CreateSubnet? then rest + [Placement.Candidate(op.subnet.id, op.subnet.cidr)] else rest
  }

  lemma PlannedAdd(ops: seq<Op>, op: Op)
    ensures Planned(ops + [op]) == if op.CreateSubnet?
          then Planned(ops) + [Placement.Candidate(op.subnet.id, op.subnet.cidr)] else Planned(ops)
  {
    assert (ops + [op])[..|ops|] == ops;
  }

  /** The subnets known when write `k` is planned: stored ones and those planned before it. */
  function KnownAt(base: seq<Placement.Candidate>, ops: seq<Op>, k: nat): seq<Placement.Candidate>
    requires k <= |ops|
  {
    base + Planned(ops[..k])
  }

  /** A new address lies in the most specific subnet known by then. */
  ghost predicate AddrPlaced(base: seq<Placement.Candidate>, ops: seq<Op>, k: nat)
    requires k < |ops|
  {
    ops[k].CreateAddr? ==>
      && ops[k].addr.text.addr.Some?
      && exists c: Placement.Candidate :: c.id == ops[k].addr.subnet
          && Placement.IsMostSpecific(KnownAt(base, ops, k), ops[k].addr.text.addr.value, Some(c))
  }

  /** A new subnet lies in no subnet known by then, and the address it was created for follows and lies in it. */
  ghost predicate SubnetRooted(base: seq<Placement.Candidate>, ops: seq<Op>, k: nat)
    requires k < |ops|
  {
    ops[k].CreateSubnet? ==>
      var n := Placement.Candidate(ops[k].subnet.id, ops[k].subnet.cidr);
      && Placement.Parses(n)
      && (forall c :: c in KnownAt(base, ops, k) && Placement.Parses(c) ==>
          !Subset(Placement.NetworkOf(n), Placement.NetworkOf(c)))
      && k + 1 < |ops| && ops[k + 1].CreateAddr? && ops[k + 1].addr.subnet == n.id
      && ops[k + 1].addr.text.addr.Some? && Placement.Holds(n, ops[k + 1].addr.text.addr.value)
  }

  ghost predicate Placed(base: seq<Placement.Candidate>, ops: seq<Op>) {
    forall k :: 0 <= k < |ops| ==> AddrPlaced(base, ops, k) && SubnetRooted(base, ops, k)
  }

  lemma PlacedAdd(base: seq<Placement.Candidate>, ops: seq<Op>, op: Op)
    requires Placed(base, ops) && !op.CreateSubnet?
    requires op.CreateAddr? ==> AddrPlaced(base, ops + [op], |ops|)
    ensures Placed(base, ops + [op])
  {
    var more := ops + [op];
    forall k | 0 <= k < |more| ensures AddrPlaced(base, more, k) && SubnetRooted(base, more, k) {
      if k < |ops| {
        assert more[..k] == ops[..k] && more[k] == ops[k];
        assert AddrPlaced(base, ops, k) && SubnetRooted(base, ops, k);
      }
    }
  }

  lemma PlacedAddBoth(base: seq<Placement.Candidate>, ops: seq<Op>, sub: Op, op: Op)
    requires Placed(base, ops) && sub.CreateSubnet? && op.CreateAddr?
    requires SubnetRooted(base, ops + [sub] + [op], |ops|) && AddrPlaced(base, ops + [sub] + [op], |ops| + 1)
    ensures Placed(base, ops + [sub] + [op])
  {
    var more := ops + [sub] + [op];
    forall k | 0 <= k < |more| ensures AddrPlaced(base, more, k) && SubnetRooted(base, more, k) {
      if k < |ops| {
        assert more[..k] == ops[..k] && more[k] == ops[k];
        assert AddrPlaced(base, ops, k) && SubnetRooted(base, ops, k);
        assert k + 1 < |ops| ==> more[k + 1] == ops[k + 1];
      }
    }
  }

  /** The candidates the planner consults are the stored subnets and the planned ones. */
  ghost predicate Consults(base: seq<Placement.Candidate>, acc: AddrAcc) {
    acc.cands == base + Planned(acc.ops) && Placed(base, acc.ops)
  }

  lemma CreatePlaced(base: seq<Placement.Candidate>, acc: AddrAcc, dev: Id, c: Claim, r: Report)
    requires Consults(base, acc) && Recorded(c)
    ensures Consults(base, CreateStep(acc, dev, c, r))
  {
    var a := c.addr.addr;
    Placement.RecordableIsCanonical(a);
    var m := Placement.MostSpecific(acc.cands, a);
    var (subnet, acc1) := Place(acc.(next := acc.next + 1), c.addr);
    var op := CreateAddr(NewAddr(acc.next, subnet, dev, c, r), [Audit(AddressCreated, acc.next)]);
    if m.Some? {
      PlannedAdd(acc.ops, op);
      assert (acc.ops + [op])[..|acc.ops|] == acc.ops;
      assert Placement.IsMostSpecific(KnownAt(base, acc.ops + [op], |acc.ops|), a, Some(m.value));
      PlacedAdd(base, acc.ops, op);
    } else {
      CreateRooted(base, acc, dev, c, r);
    }
  }

  /** A subnet no known one reaches around, and then the address in it. */
  lemma RootedPair(base: seq<Placement.Candidate>, ops: seq<Op>, sub: Op, op: Op, a: Addr)
    requires Placed(base, ops) && sub.CreateSubnet? && op.CreateAddr? && FreeSearch.Canon(a) == a
    requires var cands, n := base + Planned(ops), Placement.Candidate(sub.subnet.id, sub.subnet.cidr);
             && Placement.MostSpecific(cands, a).None? && Placement.Holds(n, a)
             && op.addr.subnet == n.id && op.addr.text.addr == Some(a)
             && forall k :: k in cands && Placement.Parses(k) ==>
                 !Subset(Placement.NetworkOf(n), Placement.NetworkOf(k))
    ensures Placed(base, ops + [sub] + [op])
  {
    var n, all := Placement.Candidate(sub.subnet.id, sub.subnet.cidr), ops + [sub] + [op];
    PlannedAdd(ops, sub);
    assert all[..|ops|] == ops && all[..|ops| + 1] == ops + [sub];
    OnlyNewHolds(base + Planned(ops), n, a);
    assert KnownAt(base, all, |ops| + 1) == base + Planned(ops) + [n];
    PlacedAddBoth(base, ops, sub, op);
  }

  /** The subnet planned for an address holds it and lies in no candidate. */
  lemma AutoSubnet(cands: seq<Placement.Candidate>, id: Id, c: RAddr, names: set<string>)
    requires ValidAddr(c.addr) && Placement.Recordable(c.addr) && Placement.MostSpecific(cands, c.addr).None?
    ensures var s := SubnetFor(id, c, names);
            var n := Placement.Candidate(s.id, s.cidr);
            && s.id == id && Placement.Holds(n, c.addr) && FreeSearch.Canon(c.addr) == c.addr
            && forall k :: k in cands && Placement.Parses(k) ==> !Subset(Placement.NetworkOf(n), Placement.NetworkOf(k))
  {
    Placement.RecordableIsCanonical(c.addr);
    var s := SubnetFor(id, c, names);
    forall k | k in cands && Placement.Parses(k)
      ensures !Subset(Placement.NetworkOf(Placement.Candidate(s.id, s.cidr)), Placement.NetworkOf(k))
    {
      Placement.AutoCidrIsRoot(cands, c.addr, c.prefix, k);
    }
  }

  lemma CreateOps(acc: AddrAcc, dev: Id, c: Claim, r: Report, s: Subnet)
    requires Recorded(c) && Placement.MostSpecific(acc.cands, c.addr.addr).None?
          && s == SubnetFor(acc.next + 1, c.addr, acc.names)
    ensures var b := CreateStep(acc, dev, c, r);
            && b.ops == acc.ops + [CreateSubnet(s, [Audit(SubnetCreated, s.id)])]
                        + [CreateAddr(NewAddr(acc.next, s.id, dev, c, r), [Audit(AddressCreated, acc.next)])]
            && b.cands == acc.cands + [Placement.Candidate(s.id, s.cidr)]
  {}

  lemma CreateRooted(base: seq<Placement.Candidate>, acc: AddrAcc, dev: Id, c: Claim, r: Report)
    requires Consults(base, acc) && Recorded(c) && Placement.MostSpecific(acc.cands, c.addr.addr).None?
    ensures Consults(base, CreateStep(acc, dev, c, r))
  {
    var s := SubnetFor(acc.next + 1, c.addr, acc.names);
    var sub := CreateSubnet(s, [Audit(SubnetCreated, s.id)]);
    var op := CreateAddr(NewAddr(acc.next, s.id, dev, c, r), [Audit(AddressCreated, acc.next)]);
    AutoSubnet(acc.cands, acc.next + 1, c.addr, acc.names);
    CreateOps(acc, dev, c, r, s);
    PlannedAdd(acc.ops, sub);
    PlannedAdd(acc.ops + [sub], op);
    RootedPair(base, acc.ops, sub, op, c.addr.addr);
  }

  lemma OnlyNewHolds(cands: seq<Placement.Candidate>, n: Placement.Candidate, a: Addr)
    requires FreeSearch.Canon(a) == a && Placement.MostSpecific(cands, a).None? && Placement.Holds(n, a)
    ensures Placement.IsMostSpecific(cands + [n], a, Some(n))
  {}

  lemma AddrStepPlaced(base: seq<Placement.Candidate>, acc: AddrAcc, rows: seq<AddrRow>, dev: Id, c: Claim, r: Report,
                       p: Params)
    requires Consults(base, acc)
    ensures Consults(base, AddrStep(acc, rows, dev, c, r, p))
  {
    if Recorded(c) && Key(c) !in acc.seen {
      var acc1 := acc.(seen := acc.seen + {Key(c)});
      var row := FindAddr(rows, |rows|, Key(c));
      if row.None? {
        CreatePlaced(base, acc1, dev, c, r);
      } else {
        UpdatePlaced(base, acc1, row.value, dev, c, r, p);
      }
    }
  }

  lemma UpdatePlaced(base: seq<Placement.Candidate>, acc: AddrAcc, row: AddrRow, dev: Id, c: Claim, r: Report,
                     p: Params)
    requires Consults(base, acc)
    ensures Consults(base, UpdateStep(acc, row, dev, c, r, p))
  {
    var want := Resolved(row.cols, dev, c, r, p);
    if AddrChanged(row.cols, want) {
      var op := UpdateAddr(row.(cols := want.(lastSeen := r.collected)), AddrAudit(row.id, row.cols, want, dev));
      PlannedAdd(acc.ops, op);
      PlacedAdd(base, acc.ops, op);
    }
  }

  lemma {:induction false} ClaimsPlaced(acc: AddrAcc, rows: seq<AddrRow>, dev: Id, cs: seq<Claim>, r: Report,
                                        p: Params, n: nat, base: seq<Placement.Candidate>)
    requires n <= |cs| && Consults(base, acc)
    ensures Consults(base, PlanClaims(acc, rows, dev, cs, r, p, n))
  {
    if n > 0 {
      ClaimsPlaced(acc, rows, dev, cs, r, p, n - 1, base);
      AddrStepPlaced(base, PlanClaims(acc, rows, dev, cs, r, p, n - 1), rows, dev, cs[n - 1], r, p);
    }
  }

  lemma {:induction false} ReleasesPlaced(acc: Acc, rows: seq<AddrRow>, dev: Id, seen: set<Text>, noBmc: bool, n: nat,
                                          base: seq<Placement.Candidate>)
    requires n <= |rows| && Placed(base, acc.ops)
    ensures Placed(base, PlanReleases(acc, rows, dev, seen, noBmc, n).ops)
  {
    if n > 0 {
      ReleasesPlaced(acc, rows, dev, seen, noBmc, n - 1, base);
      var a := rows[n - 1];
      if Gone(a, dev, seen, noBmc) {
        PlacedAdd(base, PlanReleases(acc, rows, dev, seen, noBmc, n - 1).ops,
          UpdateAddr(Released(a, dev), [Audit(AddressReleased, a.id)]));
      }
    }
  }

  /**
   In every plan each new address goes to the most specific subnet known by then, and each new
   subnet contains the address planned right after it and lies inside no other subnet.
   */
  lemma PlanPlaces(next: Id, st: State, r: Report, p: Params, dev: Id)
    ensures Placed(Cands(st.subnets), PlanAddrs(next, st, r, p, dev).ops)
  {
    var cs := Claims(WantedIfaces(r), |WantedIfaces(r)|);
    var base := Cands(st.subnets);
    assert Planned([]) == [];
    ClaimsPlaced(StartAddrs(next, st), st.addrs, dev, cs, r, p, |cs|, base);
    var a := PlanClaims(StartAddrs(next, st), st.addrs, dev, cs, r, p, |cs|);
    ReleasesPlaced(Acc(a.next, a.ops), st.addrs, dev, a.seen, r.bmc.None?, |st.addrs|, base);
  }
}
