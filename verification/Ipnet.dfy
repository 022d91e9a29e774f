/**
 Address arithmetic over exact integers (internal/ipnet). An address is a family and a
 number; a CIDR keeps the host bits its text may carry, and its network is the aligned
 block obtained by clearing them.
 */
module Ipnet {
  import opened Wrappers
  import opened Arith

  datatype Family = V4 | V6

  datatype Addr = Addr(family: Family, value: nat)

  /** A CIDR as parsed: any address of the block and a prefix length. */
  datatype Cidr = Cidr(family: Family, addr: nat, prefix: nat)

  /** An aligned range of `Size` consecutive addresses. */
  datatype Block = Block(family: Family, base: nat, prefix: nat)

  function Bits(f: Family): nat {
    match f
    case V4 => 32
    case V6 => 128
  }

  predicate ValidCidr(c: Cidr) {
    c.prefix <= Bits(c.family) && c.addr < Pow2(Bits(c.family))
  }

  predicate ValidBlock(b: Block) {
    && b.prefix <= Bits(b.family)
    && b.base % Size(b) == 0
    && b.base + Size(b) <= Pow2(Bits(b.family))
  }

  function Size(b: Block): (r: nat)
    ensures r > 0
  {
    if b.prefix <= Bits(b.family) then Pow2(Bits(b.family) - b.prefix) else 1
  }

  /** The addresses of a block. */
  predicate In(b: Block, a: Addr) {
    a.family == b.family && b.base <= a.value < b.base + Size(b)
  }

  // ---- networks and containment

  /** The masked network of a CIDR (net.ParseCIDR, netip.Prefix.Masked). */
  function Network(c: Cidr): (b: Block)
    requires ValidCidr(c)
    ensures b.family == c.family && b.prefix == c.prefix
    ensures ValidBlock(b)
    ensures In(b, Addr(c.family, c.addr))
  {
    NetworkFits(c);
    var s := Pow2(Bits(c.family) - c.prefix);
    Block(c.family, c.addr - c.addr % s, c.prefix)
  }

  lemma NetworkFits(c: Cidr)
    requires ValidCidr(c)
    ensures var s := Pow2(Bits(c.family) - c.prefix);
            var base := c.addr - c.addr % s;
            0 <= base <= c.addr < base + s && base % s == 0 && base + s <= Pow2(Bits(c.family))
  {
    var h := Bits(c.family) - c.prefix;
    Pow2Add(c.prefix, h);
    FloorFits(c.addr, Pow2(h), Pow2(c.prefix));
  }

  /** Masked comparison, the way net.IPNet.Contains and netip.Prefix.Contains decide. */
  predicate Contains(b: Block, a: Addr) {
    a.family == b.family && a.value - a.value % Size(b) == b.base
  }

  lemma ContainsIsRange(b: Block, a: Addr)
    requires ValidBlock(b)
    ensures Contains(b, a) <==> In(b, a)
  {
    var s := Size(b);
    if In(b, a) {
      DivExact(b.base, s);
      DivModUnique(a.value, s, b.base / s, a.value - b.base);
    }
  }

  predicate Subset(a: Block, b: Block) {
    a.family == b.family && b.base <= a.base && a.base + Size(a) <= b.base + Size(b)
  }

  /** Some address lies in both blocks. */
  ghost predicate Share(a: Block, b: Block) {
    exists v: nat :: In(a, Addr(a.family, v)) && In(b, Addr(a.family, v))
  }

  lemma SizeRatio(a: Block, b: Block)
    requires a.family == b.family && b.prefix <= a.prefix <= Bits(a.family)
    ensures Size(b) == Pow2(a.prefix - b.prefix) * Size(a)
  {
    Pow2Add(a.prefix - b.prefix, Bits(a.family) - a.prefix);
  }

  /** CIDR blocks are laminar: if they share an address, the longer prefix is nested. */
  lemma Laminar(a: Block, b: Block)
    requires ValidBlock(a) && ValidBlock(b) && Share(a, b) && b.prefix <= a.prefix
    ensures Subset(a, b)
  {
    var v: nat :| In(a, Addr(a.family, v)) && In(b, Addr(a.family, v));
    SizeRatio(a, b);
    AlignedNested(a.base, Size(a), b.base, Size(b), Pow2(a.prefix - b.prefix), v);
  }

  /** ipnet.Overlaps: either network contains the other's base address. */
  predicate Overlaps(a: Block, b: Block) {
    Contains(a, Addr(b.family, b.base)) || Contains(b, Addr(a.family, a.base))
  }

  lemma OverlapsIffShare(a: Block, b: Block)
    requires ValidBlock(a) && ValidBlock(b)
    ensures Overlaps(a, b) <==> Share(a, b)
  {
    ContainsIsRange(a, Addr(b.family, b.base));
    ContainsIsRange(b, Addr(a.family, a.base));
    if Overlaps(a, b) {
      var v := if Contains(a, Addr(b.family, b.base)) then b.base else a.base;
      assert In(a, Addr(a.family, v)) && In(b, Addr(a.family, v));
    }
    if Share(a, b) {
      if b.prefix <= a.prefix {
        Laminar(a, b);
      } else {
        var v: nat :| In(a, Addr(a.family, v)) && In(b, Addr(a.family, v));
        assert In(b, Addr(b.family, v)) && In(a, Addr(b.family, v));
        Laminar(b, a);
      }
    }
  }

  /** ipnet.Within: same family, longer prefix, base inside. */
  predicate Within(child: Block, parent: Block) {
    && child.family == parent.family
    && child.prefix > parent.prefix
    && Contains(parent, Addr(child.family, child.base))
  }

  lemma SizeByPrefix(a: Block, b: Block)
    requires a.family == b.family && b.prefix < a.prefix <= Bits(a.family)
    ensures Size(a) < Size(b)
  {
    Pow2Monotone(Bits(a.family) - a.prefix, Bits(a.family) - b.prefix);
  }

  lemma WithinIffStrictSubset(child: Block, parent: Block)
    requires ValidBlock(child) && ValidBlock(parent)
    ensures Within(child, parent) <==> Subset(child, parent) && child != parent
  {
    ContainsIsRange(parent, Addr(child.family, child.base));
    if Within(child, parent) {
      assert In(child, Addr(child.family, child.base));
      Laminar(child, parent);
    }
    if Subset(child, parent) && child != parent {
      if child.prefix < parent.prefix {
        SizeByPrefix(parent, child);
      }
    }
  }

  // ---- Subdivide

  datatype Error = ErrParse | ErrTooLarge | ErrExhausted

  const MAX_SUBDIVIDE := 1024

  /** The i-th block of prefix `p` inside `b`. */
  function Child(b: Block, p: nat, i: nat): Block
    requires b.prefix <= p <= Bits(b.family)
  {
    Block(b.family, b.base + Pow2(Bits(b.family) - p) * i, p)
  }

  lemma ChildFits(b: Block, p: nat, i: nat)
    requires ValidBlock(b) && b.prefix < p <= Bits(b.family) && i < Pow2(p - b.prefix)
    ensures ValidBlock(Child(b, p, i)) && Within(Child(b, p, i), b)
  {
    var c := Child(b, p, i);
    SizeRatio(c, b);
    StepFits(b.base, Size(b), Size(c), Pow2(p - b.prefix), i);
    WithinIffStrictSubset(c, b);
  }

  lemma StepFits(base: nat, t: nat, s: nat, n: nat, i: nat)
    requires s > 0 && t == n * s && t > 0 && i < n && base % t == 0
    ensures (base + s * i) % s == 0 && base + s * i + s <= base + t
  {
    var q := base / t;
    DivExact(base, t);
    Assoc(q, n, s);
    var m := q * n;
    Distrib(m, i, s);
    MultipleMod(m + i, s);
    MulMono(i + 1, n, s);
    Distrib(i, 1, s);
  }

  /** Some child holds each address of the parent. */
  lemma ChildOf(b: Block, p: nat, v: nat) returns (i: nat)
    requires ValidBlock(b) && b.prefix < p <= Bits(b.family)
    requires In(b, Addr(b.family, v))
    ensures i < Pow2(p - b.prefix) && In(Child(b, p, i), Addr(b.family, v))
  {
    SizeRatio(Child(b, p, 0), b);
    i := StepOf(v - b.base, Pow2(Bits(b.family) - p), Pow2(p - b.prefix));
  }

  lemma StepOf(v: nat, s: nat, n: nat) returns (i: nat)
    requires s > 0 && v < n * s
    ensures i < n && s * i <= v < s * i + s
  {
    i := v / s;
    DivExact(v, s);
    MulLess(i, n, s);
  }

  lemma ChildrenDisjoint(b: Block, p: nat, i: nat, j: nat)
    requires b.prefix <= p <= Bits(b.family) && i < j
    ensures Child(b, p, i).base + Size(Child(b, p, i)) <= Child(b, p, j).base
  {
    var s := Pow2(Bits(b.family) - p);
    MulMono(i + 1, j, s);
    Distrib(i, 1, s);
  }

  /** The parent is the disjoint union of the blocks, in ascending order. */
  ghost predicate Partition(b: Block, out: seq<Block>) {
    && (forall i :: 0 <= i < |out| ==> ValidBlock(out[i]) && Within(out[i], b))
    && (forall i, j :: 0 <= i < j < |out| ==> out[i].base + Size(out[i]) <= out[j].base)
    && (forall v: nat :: In(b, Addr(b.family, v)) ==>
                           exists i :: 0 <= i < |out| && In(out[i], Addr(b.family, v)))
  }

  /** ipnet.Subdivide. */
  method Subdivide(b: Block, prefixLen: int) returns (r: Result<seq<Block>, Error>)
    requires ValidBlock(b)
    ensures prefixLen <= b.prefix || prefixLen > Bits(b.family) <==> r == Err(ErrParse)
    ensures r.Ok? ==> Partition(b, r.value) && |r.value| == Pow2(prefixLen - b.prefix)
    ensures r.Ok? ==> forall i :: 0 <= i < |r.value| ==> r.value[i].prefix == prefixLen
    ensures r == Err(ErrTooLarge) <==>
            b.prefix < prefixLen <= Bits(b.family) && Pow2(prefixLen - b.prefix) > 1024
  {
    if prefixLen <= b.prefix || prefixLen > Bits(b.family) {
      return Err(ErrParse);
    }
    var countBits := prefixLen - b.prefix;
    if countBits > 20 {
      Pow2Monotone(11, countBits);
      return Err(ErrTooLarge);
    }
    var count := Pow2(countBits);
    if count > MAX_SUBDIVIDE {
      return Err(ErrTooLarge);
    }
    var out: seq<Block> := [];
    var i := 0;
    while i < count
      invariant 0 <= i <= count && |out| == i
      invariant forall k :: 0 <= k < i ==> out[k] == Child(b, prefixLen, k)
    {
      out := out + [Child(b, prefixLen, i)];
      i := i + 1;
    }
    ChildrenPartition(b, prefixLen, out);
    return Ok(out);
  }

  lemma ChildrenPartition(b: Block, p: nat, out: seq<Block>)
    requires ValidBlock(b) && b.prefix < p <= Bits(b.family)
    requires |out| == Pow2(p - b.prefix)
    requires forall k :: 0 <= k < |out| ==> out[k] == Child(b, p, k)
    ensures Partition(b, out)
  {
    forall k | 0 <= k < |out| ensures ValidBlock(out[k]) && Within(out[k], b) {
      ChildFits(b, p, k);
    }
    forall i, j | 0 <= i < j < |out| ensures out[i].base + Size(out[i]) <= out[j].base {
      ChildrenDisjoint(b, p, i, j);
    }
    forall v: nat | In(b, Addr(b.family, v))
      ensures exists i :: 0 <= i < |out| && In(out[i], Addr(b.family, v))
    {
      var i := ChildOf(b, p, v);
      assert In(out[i], Addr(b.family, v));
    }
  }
}
