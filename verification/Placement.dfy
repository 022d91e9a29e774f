/** Placing an address in the tenant's subnets (internal/ipnet/placement.go). */
module Placement {
  import opened Wrappers
  import opened Arith
  import opened Ipnet
  import FreeSearch

  type Id = nat

  /** A stored subnet: its CIDR is None when the stored text does not parse. */
  datatype Candidate = Candidate(id: Id, cidr: Option<Cidr>)

  predicate Parses(c: Candidate) {
    c.cidr.Some? && ValidCidr(c.cidr.value)
  }

  function NetworkOf(c: Candidate): (b: Block)
    requires Parses(c)
    ensures ValidBlock(b) && b.prefix == c.cidr.value.prefix
  {
    Network(c.cidr.value)
  }

  predicate Holds(c: Candidate, a: Addr) {
    Parses(c) && Contains(NetworkOf(c), a)
  }

  predicate Better(c: Candidate, best: Candidate)
    requires Parses(c) && Parses(best)
  {
    var bits, bestBits := c.cidr.value.prefix, best.cidr.value.prefix;
    bits > bestBits || (bits == bestBits && c.id < best.id)
  }

  /** The holding candidate no other candidate beats. */
  ghost predicate IsMostSpecific(cands: seq<Candidate>, a: Addr, r: Option<Candidate>) {
    match r
    case None => forall c :: c in cands ==> !Holds(c, a)
    case Some(b) =>
      && b in cands && Holds(b, a)
      && forall c :: c in cands && Holds(c, a) ==> !Better(c, b)
  }

  function MostSpecificTo(cands: seq<Candidate>, n: nat, a: Addr): (r: Option<Candidate>)
    requires n <= |cands|
    ensures IsMostSpecific(cands[..n], a, r)
  {
    if n == 0 then None
    else
      var best := MostSpecificTo(cands, n - 1, a);
      var c := cands[n - 1];
      assert cands[..n] == cands[..n - 1] + [c];
      if Holds(c, a) && (best.None? || Better(c, best.value)) then Some(c) else best
  }

  function MostSpecific(cands: seq<Candidate>, addr: Addr): (r: Option<Candidate>)
    ensures IsMostSpecific(cands, FreeSearch.Canon(addr), r)
  {
    assert cands[..|cands|] == cands;
    MostSpecificTo(cands, |cands|, FreeSearch.Canon(addr))
  }

  /** ipnet.MostSpecific: one pass with the best candidate so far. */
  method FindMostSpecific(cands: seq<Candidate>, addr: Addr) returns (best: Option<Candidate>)
    ensures best == MostSpecific(cands, addr)
    ensures IsMostSpecific(cands, FreeSearch.Canon(addr), best)
  {
    var a := FreeSearch.Canon(addr);
    best := None;
    var i := 0;
    while i < |cands|
      invariant 0 <= i <= |cands|
      invariant best == MostSpecificTo(cands, i, a)
    {
      var c := cands[i];
      if Holds(c, a) && (best.None? || Better(c, best.value)) {
        best := Some(c);
      }
      i := i + 1;
    }
  }

  /** Placement does not depend on the order the subnets are listed in. */
  lemma MostSpecificOrderFree(c1: seq<Candidate>, c2: seq<Candidate>, a: Addr)
    requires multiset(c1) == multiset(c2)
    ensures MostSpecific(c1, a).Some? == MostSpecific(c2, a).Some?
    ensures MostSpecific(c1, a).Some? ==> MostSpecific(c1, a).value.id == MostSpecific(c2, a).value.id
  {
    forall c ensures c in c1 <==> c in c2 {
      assert c in multiset(c1) <==> c in multiset(c2);
    }
    var r1, r2 := MostSpecific(c1, a), MostSpecific(c2, a);
    if r1.Some? { assert r1.value in c2; }
    if r2.Some? { assert r2.value in c1; }
  }

  /** The chosen network lies inside every subnet that contains the address. */
  lemma MostSpecificIsInnermost(cands: seq<Candidate>, addr: Addr, c: Candidate)
    requires c in cands && Holds(c, FreeSearch.Canon(addr))
    ensures MostSpecific(cands, addr).Some?
    ensures var m := MostSpecific(cands, addr).value;
            Parses(m) && Subset(NetworkOf(m), NetworkOf(c))
  {
    var a := FreeSearch.Canon(addr);
    var m := MostSpecific(cands, addr).value;
    ContainsIsRange(NetworkOf(c), a);
    ContainsIsRange(NetworkOf(m), a);
    assert In(NetworkOf(m), Addr(a.family, a.value)) && In(NetworkOf(c), Addr(a.family, a.value));
    Laminar(NetworkOf(m), NetworkOf(c));
  }

  /** The chosen subnet has the longest prefix of those that contain the address, and the lowest id among equals. */
  lemma MostSpecificIsBest(cands: seq<Candidate>, addr: Addr, c: Candidate)
    requires c in cands && Holds(c, FreeSearch.Canon(addr))
    ensures var m := MostSpecific(cands, addr);
            && m.Some? && m.value in cands && Holds(m.value, FreeSearch.Canon(addr))
            && c.cidr.value.prefix <= m.value.cidr.value.prefix
            && (c.cidr.value.prefix == m.value.cidr.value.prefix ==> m.value.id <= c.id)
  {
    assert !Better(c, MostSpecific(cands, addr).value);
  }

  /** ipnet.AutoPrefix: the CIDR of the subnet created for an address no subnet contains. */
  function AutoCidr(addr: Addr, bits: int): (c: Cidr)
    requires addr.value < Pow2(Bits(addr.family))
    requires FreeSearch.Canon(addr) == addr
    ensures ValidCidr(c) && Contains(Network(c), addr)
    ensures addr.family == V4 ==> 8 <= c.prefix <= 32
    ensures addr.family == V6 ==> 16 <= c.prefix < 128
  {
    var p: nat := if addr.family == V4 then (if bits < 8 || bits > 32 then 32 else bits)
                  else (if bits < 16 || bits >= 128 then 64 else bits);
    var raw := Cidr(addr.family, addr.value, p);
    ContainsIsRange(Network(raw), addr);
    var net := Network(raw);
    NetworkIdempotent(raw);
    Cidr(addr.family, net.base, p)
  }

  lemma NetworkIdempotent(c: Cidr)
    requires ValidCidr(c)
    ensures ValidCidr(Cidr(c.family, Network(c).base, c.prefix))
    ensures Network(Cidr(c.family, Network(c).base, c.prefix)) == Network(c)
  {}

  /** A new subnet for an uncontained address is a root: no existing subnet reaches around it. */
  lemma AutoCidrIsRoot(cands: seq<Candidate>, addr: Addr, bits: int, c: Candidate)
    requires addr.value < Pow2(Bits(addr.family)) && FreeSearch.Canon(addr) == addr
    requires MostSpecific(cands, addr).None?
    requires c in cands && Parses(c)
    ensures !Subset(Network(AutoCidr(addr, bits)), NetworkOf(c))
  {
    var net := Network(AutoCidr(addr, bits));
    ContainsIsRange(net, addr);
    ContainsIsRange(NetworkOf(c), addr);
    assert !Holds(c, addr);
  }

  // ---- address classes

  datatype Class = ClassUnspecified | ClassLoopback | ClassLinkLocal | ClassMulticast
                 | ClassBroadcast | ClassMapped | ClassGlobal | ClassULA

  /** ipnet.Classify for a valid address. */
  function Classify(a: Addr): Class {
    match a.family
    case V4 =>
      if a.value == 0 then ClassUnspecified
      else if a.value / 0x100_0000 == 127 then ClassLoopback
      else if a.value / 0x1000_0000 == 14 then ClassMulticast
      else if a.value == 0xffff_ffff then ClassBroadcast
      else if a.value / 0x1_0000 == 0xa9fe then ClassLinkLocal
      else ClassGlobal
    case V6 =>
      var top := a.value / 0x1_0000_0000_0000_0000_0000_0000_0000;
      if FreeSearch.Canon(a) != a then ClassMapped
      else if a.value == 0 then ClassUnspecified
      else if a.value == 1 then ClassLoopback
      else if top / 0x100 == 0xff then ClassMulticast
      else if top / 0x40 == 0x3fa then ClassLinkLocal
      else if top / 0x200 == 0x7e then ClassULA
      else ClassGlobal
  }

  predicate Recordable(a: Addr) {
    Classify(a) == ClassGlobal || Classify(a) == ClassULA
  }

  /** A recordable address is its own text identity: mapped addresses are never recorded. */
  lemma RecordableIsCanonical(a: Addr)
    ensures Recordable(a) ==> FreeSearch.Canon(a) == a
  {}

  /**
   The addresses worth recording: not 0.0.0.0, 127.0.0.0/8, 169.254.0.0/16, 224.0.0.0/4 or the
   broadcast address; not ::, ::1, ::ffff:0:0/96, fe80::/10 or ff00::/8.
   */
  lemma RecordableExact(a: Addr)
    requires a.value < Pow2(Bits(a.family))
    ensures a.family == V4 ==>
            (Recordable(a) <==> a.value != 0 && !(0x7f00_0000 <= a.value <= 0x7fff_ffff)
                                && !(0xa9fe_0000 <= a.value <= 0xa9fe_ffff) && !(0xe000_0000 <= a.value <= 0xefff_ffff)
                                && a.value != 0xffff_ffff)
    ensures a.family == V6 ==>
            (Recordable(a) <==>
               && a.value > 1 && !(0xffff_0000_0000 <= a.value <= 0xffff_ffff_ffff)
               && !(0xfe80_0000_0000_0000_0000_0000_0000_0000 <= a.value < 0xfec0_0000_0000_0000_0000_0000_0000_0000)
               && !(0xff00_0000_0000_0000_0000_0000_0000_0000 <= a.value))
  {
    if a.family == V6 {
      FreeSearch.CanonIs(a);
      AddressSpace();
      V6Top(a.value);
    }
  }

  lemma AddressSpace()
    ensures Pow2(128) == 0x1_0000_0000_0000_0000_0000_0000_0000_0000
  {
    assert Pow2(8) == 0x100;
    Pow2Add(8, 8);
    assert Pow2(16) == 0x1_0000;
    Pow2Add(16, 16);
    assert Pow2(32) == 0x1_0000_0000;
    Pow2Add(32, 32);
    assert Pow2(64) == 0x1_0000_0000_0000_0000;
    Pow2Add(64, 64);
  }

  lemma V6Top(v: nat)
    requires v < 0x1_0000_0000_0000_0000_0000_0000_0000_0000
    ensures var top := v / 0x1_0000_0000_0000_0000_0000_0000_0000;
            && (top / 0x100 == 0xff <==> 0xff00_0000_0000_0000_0000_0000_0000_0000 <= v)
            && (top / 0x40 == 0x3fa <==> 0xfe80_0000_0000_0000_0000_0000_0000_0000 <= v
                                          < 0xfec0_0000_0000_0000_0000_0000_0000_0000)
  {}

  /** The subnet opened for an address has the reported prefix length, or 32 or 64 where that makes no sense. */
  lemma AutoCidrExact(addr: Addr, bits: int)
    requires addr.value < Pow2(Bits(addr.family)) && FreeSearch.Canon(addr) == addr
    ensures var c := AutoCidr(addr, bits);
            && c.family == addr.family && c.addr == Network(c).base && In(Network(c), addr)
            && (addr.family == V4 ==> c.prefix == if 8 <= bits <= 32 then bits else 32)
            && (addr.family == V6 ==> c.prefix == if 16 <= bits <= 127 then bits else 64)
  {
    var c := AutoCidr(addr, bits);
    ContainsIsRange(Network(c), addr);
    NetworkIdempotent(Cidr(addr.family, addr.value, c.prefix));
  }
}
