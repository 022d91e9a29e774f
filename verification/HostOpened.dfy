/** The networks a report opens, read off the report and the stored rows, and the names they get. */
module HostOpened {
  import opened Wrappers
  import opened Ipnet
  import opened HostStore
  import opened HostReport
  import opened HostPlan
  import opened HostAddrs
  import Placement

  // ---- names

  lemma {:induction false} NoSlash(n: nat)
    ensures '/' !in Decimal(n)
  {
    DecimalDigits(n);
  }

  lemma SplitAtSlash(x: string, y: string, x': string, y': string)
    requires x + "/" + y == x' + "/" + y' && '/' !in x && '/' !in x'
    ensures x == x' && y == y'
  {
    var a, b := x + "/" + y, x' + "/" + y';
    assert a[|x|] == '/' && b[|x'|] == '/';
    assert (forall k :: 0 <= k < |x| ==> a[k] == x[k]) && forall k :: 0 <= k < |x'| ==> b[k] == x'[k];
    assert x == a[..|x|] && x' == b[..|x'|] && y == a[|x| + 1..] && y' == b[|x'| + 1..];
  }

  function FamilyText(c: Cidr): string {
    if c.family == V4 then "4:" else "6:"
  }

  /** Networks with the same text are the same. */
  lemma CidrTextInjective(a: Cidr, b: Cidr)
    requires CidrText(a) == CidrText(b)
    ensures a == b
  {
    var x, y := Decimal(a.addr), Decimal(b.addr);
    NoSlash(a.addr);
    NoSlash(b.addr);
    assert CidrText(a) == FamilyText(a) + x + "/" + Decimal(a.prefix);
    assert CidrText(b) == FamilyText(b) + y + "/" + Decimal(b.prefix);
    assert CidrText(a)[0] == FamilyText(a)[0] && CidrText(b)[0] == FamilyText(b)[0];
    SplitAtSlash(FamilyText(a) + x, Decimal(a.prefix), FamilyText(b) + y, Decimal(b.prefix));
    assert (FamilyText(a) + x)[2..] == x && (FamilyText(b) + y)[2..] == y;
    ParseDecimal(a.addr);
    ParseDecimal(b.addr);
    ParseDecimal(a.prefix);
    ParseDecimal(b.prefix);
  }

  lemma CidrTextChars(c: Cidr)
    ensures Lower(CidrText(c)) == CidrText(c) && |CidrText(c)| > 0 && CidrText(c)[|CidrText(c)| - 1] != ')'
  {
    var t, p := CidrText(c), Decimal(c.prefix);
    DecimalDigits(c.addr);
    DecimalDigits(c.prefix);
    var head := FamilyText(c) + Decimal(c.addr) + "/";
    assert t == head + p && p[|p| - 1] in p;
    forall k | 0 <= k < |t| ensures LowerChar(t[k]) == t[k] {
      assert t[k] in FamilyText(c) || t[k] in Decimal(c.addr) || t[k] == '/' || t[k] in p;
    }
  }

  const AUTO := " (auto)"

  lemma LowerAuto(c: Cidr)
    ensures Lower(CidrText(c) + AUTO) == CidrText(c) + AUTO
  {
    CidrTextChars(c);
    var t := CidrText(c);
    forall k | 0 <= k < |t + AUTO| ensures LowerChar((t + AUTO)[k]) == (t + AUTO)[k] {
      if k < |t| { assert Lower(t)[k] == t[k]; }
    }
  }

  ghost predicate LowerTaken(subnets: map<Id, Subnet>, name: string) {
    exists i :: i in subnets && Lower(subnets[i].name) == name
  }

  /** What a network opened for a report is called. */
  ghost function NameOf(subnets: map<Id, Subnet>, c: Cidr): string {
    if LowerTaken(subnets, CidrText(c)) then CidrText(c) + AUTO else CidrText(c)
  }

  lemma NamesDiffer(subnets: map<Id, Subnet>, a: Cidr, b: Cidr)
    requires a != b
    ensures NameOf(subnets, a) != NameOf(subnets, b)
    ensures CidrText(a) != Lower(NameOf(subnets, b))
  {
    CidrTextChars(a);
    CidrTextChars(b);
    LowerAuto(b);
    var x, y := CidrText(a), CidrText(b);
    if x == y { CidrTextInjective(a, b); }
    assert x == (x + AUTO)[..|x|] && y == (y + AUTO)[..|y|];
    assert (x + AUTO)[|x + AUTO| - 1] == ')' && (y + AUTO)[|y + AUTO| - 1] == ')';
  }

  /** The name is stored already exactly when the network's text and the fallback are. */
  lemma NameStored(subnets: map<Id, Subnet>, c: Cidr)
    ensures HasSubnet(subnets, NameOf(subnets, c)) <==> NameTakenTwice(subnets, c)
  {
    CidrTextChars(c);
    assert forall i :: i in subnets && subnets[i].name == CidrText(c) ==> Lower(subnets[i].name) == CidrText(c);
  }

  ghost predicate NameTakenTwice(subnets: map<Id, Subnet>, c: Cidr) {
    LowerTaken(subnets, CidrText(c)) && HasSubnet(subnets, CidrText(c) + AUTO)
  }

  // ---- the networks

  function CidrOf(c: Claim): (d: Cidr)
    requires Recorded(c)
    ensures ValidCidr(d) && Contains(Network(d), c.addr.addr)
  {
    Placement.RecordableIsCanonical(c.addr.addr);
    Placement.AutoCidr(c.addr.addr, c.addr.prefix)
  }

  ghost predicate StoredHolds(subnets: map<Id, Subnet>, a: Addr) {
    exists i :: i in subnets && Placement.Holds(Placement.Candidate(i, subnets[i].cidr), a)
  }

  /** A recorded address without a row, outside every stored subnet. */
  ghost predicate Homeless(subnets: map<Id, Subnet>, addrs: map<Id, AddrRow>, c: Claim) {
    Recorded(c) && !HasAddr(addrs, Key(c)) && !StoredHolds(subnets, c.addr.addr)
  }

  ghost predicate Covered(ds: seq<Cidr>, a: Addr) {
    exists d :: d in ds && ValidCidr(d) && Contains(Network(d), a)
  }

  /** In the report's order, the network of each homeless address outside those opened before it. */
  ghost function Opened(subnets: map<Id, Subnet>, addrs: map<Id, AddrRow>, cs: seq<Claim>, n: nat): seq<Cidr>
    requires n <= |cs|
  {
    if n == 0 then []
    else
      var ds, c := Opened(subnets, addrs, cs, n - 1), cs[n - 1];
      if Homeless(subnets, addrs, c) && !Covered(ds, c.addr.addr) then ds + [CidrOf(c)] else ds
  }

  lemma CoveredMore(ds: seq<Cidr>, d: Cidr, a: Addr)
    ensures Covered(ds, a) ==> Covered(ds + [d], a)
    ensures ValidCidr(d) && Contains(Network(d), a) ==> Covered(ds + [d], a)
  {
    assert forall x :: x in ds ==> x in ds + [d];
    assert d in ds + [d];
  }

  /** Afterwards no address is homeless: it has a row, or a stored or opened subnet around it. */
  lemma {:induction false} OpenedCovers(subnets: map<Id, Subnet>, addrs: map<Id, AddrRow>, cs: seq<Claim>, n: nat,
                                        j: nat)
    requires j < n <= |cs| && Homeless(subnets, addrs, cs[j])
    ensures Covered(Opened(subnets, addrs, cs, n), cs[j].addr.addr)
  {
    var ds, c := Opened(subnets, addrs, cs, n - 1), cs[n - 1];
    if j < n - 1 { OpenedCovers(subnets, addrs, cs, n - 1, j); }
    if Homeless(subnets, addrs, c) && !Covered(ds, c.addr.addr) { CoveredMore(ds, CidrOf(c), cs[j].addr.addr); }
  }

  lemma {:induction false} OpenedValid(subnets: map<Id, Subnet>, addrs: map<Id, AddrRow>, cs: seq<Claim>, n: nat)
    requires n <= |cs|
    ensures forall d :: d in Opened(subnets, addrs, cs, n) ==> ValidCidr(d)
  {
    if n > 0 { OpenedValid(subnets, addrs, cs, n - 1); }
  }

  /** Another claim of an address already looked at opens nothing. */
  lemma RepeatOpensNone(subnets: map<Id, Subnet>, addrs: map<Id, AddrRow>, cs: seq<Claim>, n: nat)
    requires n < |cs| && Recorded(cs[n]) && Decides(cs, n, Key(cs[n])).Some?
    ensures Opened(subnets, addrs, cs, n + 1) == Opened(subnets, addrs, cs, n)
  {
    var j := DecidedBy(cs, n, Key(cs[n]));
    assert cs[j].addr.addr == cs[n].addr.addr;
    if Homeless(subnets, addrs, cs[n]) { OpenedCovers(subnets, addrs, cs, n, j); }
  }

  lemma {:induction false} DecidedBy(cs: seq<Claim>, n: nat, text: Text) returns (j: nat)
    requires n <= |cs| && Decides(cs, n, text).Some?
    ensures j < n && Recorded(cs[j]) && Key(cs[j]) == text
  {
    if Decides(cs, n - 1, text).Some? { j := DecidedBy(cs, n - 1, text); } else { j := n - 1; }
  }
}
