/** First-free and bulk-free search over a block's usable hosts (internal/ipnet). */
module FreeSearch {
  import opened Wrappers
  import opened Arith
  import opened Ipnet

  const MAX_HOST_ENUMERATE := 65536

  /** Lowest usable host: RFC 4632 network address and RFC 4291 subnet-router anycast are skipped. */
  function HostLo(b: Block): nat {
    match b.family
    case V4 => if b.prefix < 31 then b.base + 1 else b.base
    case V6 => if b.prefix < 127 then b.base + 1 else b.base
  }

  /** Highest usable host: the IPv4 broadcast address is skipped below /31 (RFC 3021). */
  function HostHi(b: Block): int {
    var last := b.base + Size(b) - 1;
    if b.family == V4 && b.prefix < 31 then last - 1 else last
  }

  function BoundedLo(b: Block, skipFirst: int): nat {
    if skipFirst > 0 then HostLo(b) + skipFirst else HostLo(b)
  }

  function BoundedHi(b: Block, skipLast: int): int {
    if skipLast > 0 then HostHi(b) - skipLast else HostHi(b)
  }

  /** A host address: in the block, not the IPv4 network or broadcast address, not the IPv6 router anycast address. */
  predicate UsableHost(b: Block, v: int) {
    && b.base <= v < b.base + Size(b)
    && (b.family == V4 && b.prefix < 31 ==> v != b.base && v != b.base + Size(b) - 1)
    && (b.family == V6 && b.prefix < 127 ==> v != b.base)
  }

  /** The search range is the block's host addresses. */
  lemma RangeIsUsable(b: Block, v: int)
    requires ValidBlock(b)
    ensures HostLo(b) <= v <= HostHi(b) <==> UsableHost(b, v)
  {
    HostRangeFits(b);
  }

  /** Usable with that many hosts of the block left below and above it. */
  predicate Admissible(b: Block, v: int, skipFirst: int, skipLast: int) {
    && UsableHost(b, v)
    && (skipFirst > 0 ==> UsableHost(b, v - skipFirst))
    && (skipLast > 0 ==> UsableHost(b, v + skipLast))
  }

  /** Skipping narrows the range to the hosts with enough others on each side. */
  lemma BoundsAreAdmissible(b: Block, v: int, skipFirst: int, skipLast: int)
    requires ValidBlock(b)
    ensures BoundedLo(b, skipFirst) <= v <= BoundedHi(b, skipLast) <==> Admissible(b, v, skipFirst, skipLast)
  {
    RangeIsUsable(b, v);
    RangeIsUsable(b, v - skipFirst);
    RangeIsUsable(b, v + skipLast);
  }

  const MAPPED_PREFIX := 0xffff
  const TWO_32 := 0x1_0000_0000

  /** Address text identity: net.IP prints an IPv4-mapped IPv6 address as IPv4. */
  function Canon(a: Addr): Addr {
    if a.family == V6 && a.value / TWO_32 == MAPPED_PREFIX then Addr(V4, a.value % TWO_32) else a
  }

  /** Only the addresses of ::ffff:0:0/96 print as another one: the IPv4 address in their low 32 bits. */
  lemma CanonIs(a: Addr)
    ensures var mapped := Block(V6, 0xffff_0000_0000, 96);
            Canon(a) == if In(mapped, a) then Addr(V4, a.value - mapped.base) else a
  {
    assert Pow2(8) == 0x100;
    Pow2Add(8, 8);
    assert Pow2(16) == 0x1_0000;
    Pow2Add(16, 16);
    assert Pow2(32) == TWO_32;
    DivExact(a.value, TWO_32);
  }

  lemma CanonInjective(f: Family, v: nat, w: nat)
    ensures Canon(Addr(f, v)) == Canon(Addr(f, w)) ==> v == w
  {
    DivExact(v, TWO_32);
    DivExact(w, TWO_32);
  }

  function Blocked(exclude: set<Addr>, gateway: Option<Addr>): set<Addr> {
    (set a | a in exclude :: Canon(a)) + (if gateway.Some? then {Canon(gateway.value)} else {})
  }

  predicate Free(f: Family, v: nat, blocked: set<Addr>) {
    Canon(Addr(f, v)) !in blocked
  }

  /** The least free value of [lo, hi], if any. */
  function NextFree(f: Family, lo: nat, hi: int, blocked: set<Addr>): (r: Option<nat>)
    ensures r.Some? ==> lo <= r.value <= hi && Free(f, r.value, blocked)
    ensures r.Some? ==> forall v: nat :: lo <= v < r.value ==> !Free(f, v, blocked)
    ensures r.None? ==> forall v: nat :: lo <= v <= hi ==> !Free(f, v, blocked)
    decreases hi - lo
  {
    if lo > hi then None
    else if Free(f, lo, blocked) then Some(lo)
    else NextFree(f, lo + 1, hi, blocked)
  }

  /** A run of blocked values is no longer than the blocked set. */
  lemma {:induction false} Pigeonhole(f: Family, lo: nat, n: nat, blocked: set<Addr>)
    requires forall v: nat :: lo <= v < lo + n ==> !Free(f, v, blocked)
    ensures n <= |blocked|
    decreases n
  {
    if n > 0 {
      var top := Canon(Addr(f, lo + n - 1));
      assert !Free(f, lo + n - 1, blocked);
      forall v: nat | lo <= v < lo + n - 1 ensures !Free(f, v, blocked - {top}) {
        assert !Free(f, v, blocked);
        CanonInjective(f, v, lo + n - 1);
      }
      Pigeonhole(f, lo, n - 1, blocked - {top});
    }
  }

  /** No excluded address and not the gateway, by text. */
  ghost predicate Avoids(a: Addr, exclude: set<Addr>, gateway: Option<Addr>) {
    (forall x :: x in exclude ==> Canon(x) != Canon(a)) && (gateway.Some? ==> Canon(gateway.value) != Canon(a))
  }

  /** The least host of the block with enough others around it that is neither excluded nor the gateway. */
  ghost predicate LeastFree(b: Block, exclude: set<Addr>, gateway: Option<Addr>, skipFirst: int, skipLast: int,
                            r: Option<nat>) {
    && (r.Some? ==> Admissible(b, r.value, skipFirst, skipLast) && Avoids(Addr(b.family, r.value), exclude, gateway))
    && (forall v: nat :: Admissible(b, v, skipFirst, skipLast) && Avoids(Addr(b.family, v), exclude, gateway) ==>
          r.Some? && r.value <= v)
  }

  lemma FreeIffAvoids(f: Family, v: nat, exclude: set<Addr>, gateway: Option<Addr>)
    ensures Free(f, v, Blocked(exclude, gateway)) <==> Avoids(Addr(f, v), exclude, gateway)
  {
    var a := Addr(f, v);
    forall x | x in exclude ensures Canon(x) in Blocked(exclude, gateway) {}
  }

  lemma NextIsLeast(b: Block, exclude: set<Addr>, gateway: Option<Addr>, skipFirst: int, skipLast: int)
    requires ValidBlock(b)
    ensures LeastFree(b, exclude, gateway, skipFirst, skipLast,
              NextFree(b.family, BoundedLo(b, skipFirst), BoundedHi(b, skipLast), Blocked(exclude, gateway)))
  {
    var lo, hi, blocked := BoundedLo(b, skipFirst), BoundedHi(b, skipLast), Blocked(exclude, gateway);
    var r := NextFree(b.family, lo, hi, blocked);
    if r.Some? {
      BoundsAreAdmissible(b, r.value, skipFirst, skipLast);
      FreeIffAvoids(b.family, r.value, exclude, gateway);
    }
    forall v: nat | Admissible(b, v, skipFirst, skipLast) && Avoids(Addr(b.family, v), exclude, gateway)
      ensures r.Some? && r.value <= v
    {
      BoundsAreAdmissible(b, v, skipFirst, skipLast);
      FreeIffAvoids(b.family, v, exclude, gateway);
    }
  }

  /** ipnet.FirstFree; `probes` counts the addresses inspected. */
  method FirstFree(b: Block, exclude: set<Addr>, gateway: Option<Addr>, skipFirst: int, skipLast: int)
    returns (r: Option<nat>, probes: nat)
    ensures r == NextFree(b.family, BoundedLo(b, skipFirst), BoundedHi(b, skipLast), Blocked(exclude, gateway))
    ensures ValidBlock(b) ==> LeastFree(b, exclude, gateway, skipFirst, skipLast, r)
    ensures probes <= |Blocked(exclude, gateway)| + 1
  {
    if ValidBlock(b) { NextIsLeast(b, exclude, gateway, skipFirst, skipLast); }
    var lo, hi := BoundedLo(b, skipFirst), BoundedHi(b, skipLast);
    var blocked := Blocked(exclude, gateway);
    var cur := lo;
    probes := 0;
    while cur <= hi
      invariant cur >= lo && probes == cur - lo
      invariant forall v: nat :: lo <= v < cur ==> !Free(b.family, v, blocked)
      invariant NextFree(b.family, lo, hi, blocked) == NextFree(b.family, cur, hi, blocked)
    {
      Pigeonhole(b.family, lo, cur - lo, blocked);
      probes := probes + 1;
      if Free(b.family, cur, blocked) {
        return Some(cur), probes;
      }
      cur := cur + 1;
    }
    Pigeonhole(b.family, lo, cur - lo, blocked);
    return None, probes;
  }

  /** Up to n first-free answers, each added to the blocked set before the next search. */
  function IterFree(f: Family, lo: nat, hi: int, blocked: set<Addr>, n: nat): seq<nat>
    decreases n
  {
    if n == 0 then []
    else match NextFree(f, lo, hi, blocked)
         case None => []
         case Some(v) => [v] + IterFree(f, lo, hi, blocked + {Canon(Addr(f, v))}, n - 1)
  }

  lemma IterFreeStep(f: Family, lo: nat, hi: int, blocked: set<Addr>, out: seq<nat>, max: nat, v: nat)
    requires |out| < max && NextFree(f, lo, hi, blocked) == Some(v)
    ensures out + IterFree(f, lo, hi, blocked, max - |out|)
         == (out + [v]) + IterFree(f, lo, hi, blocked + {Canon(Addr(f, v))}, max - |out + [v]|)
  {
    var rest := IterFree(f, lo, hi, blocked + {Canon(Addr(f, v))}, max - |out| - 1);
    assert IterFree(f, lo, hi, blocked, max - |out|) == [v] + rest;
    assert out + ([v] + rest) == (out + [v]) + rest;
  }

  lemma {:induction false} NextFreeSameBlocked(f: Family, lo: nat, hi: int, b1: set<Addr>, b2: set<Addr>)
    requires forall v: nat :: lo <= v <= hi ==> (Free(f, v, b1) <==> Free(f, v, b2))
    ensures NextFree(f, lo, hi, b1) == NextFree(f, lo, hi, b2)
    decreases hi - lo
  {
    if lo <= hi {
      assert Free(f, lo, b1) <==> Free(f, lo, b2);
      NextFreeSameBlocked(f, lo + 1, hi, b1, b2);
    }
  }

  /** Only what is blocked inside [lo, hi] matters. */
  lemma {:induction false} IterSameBlocked(f: Family, lo: nat, hi: int, b1: set<Addr>, b2: set<Addr>, n: nat)
    requires forall v: nat :: lo <= v <= hi ==> (Free(f, v, b1) <==> Free(f, v, b2))
    ensures IterFree(f, lo, hi, b1, n) == IterFree(f, lo, hi, b2, n)
    decreases n
  {
    NextFreeSameBlocked(f, lo, hi, b1, b2);
    if n > 0 {
      match NextFree(f, lo, hi, b1)
      case None =>
      case Some(w) =>
        var c := Canon(Addr(f, w));
        forall v: nat | lo <= v <= hi
          ensures Free(f, v, b1 + {c}) <==> Free(f, v, b2 + {c})
        {
          assert Free(f, v, b1) <==> Free(f, v, b2);
        }
        IterSameBlocked(f, lo, hi, b1 + {c}, b2 + {c}, n - 1);
    }
  }

  /** A blocked lowest value can be dropped from the range. */
  lemma {:induction false} IterSkip(f: Family, lo: nat, hi: int, blocked: set<Addr>, n: nat)
    requires !Free(f, lo, blocked)
    ensures IterFree(f, lo, hi, blocked, n) == IterFree(f, lo + 1, hi, blocked, n)
    decreases n
  {
    assert NextFree(f, lo, hi, blocked) == NextFree(f, lo + 1, hi, blocked);
    if n > 0 {
      match NextFree(f, lo, hi, blocked)
      case None =>
      case Some(v) => IterSkip(f, lo, hi, blocked + {Canon(Addr(f, v))}, n - 1);
    }
  }

  /** Taking a free lowest value and moving on is one iteration of the search. */
  lemma IterTake(f: Family, lo: nat, hi: int, blocked: set<Addr>, n: nat)
    requires n > 0 && lo <= hi && Free(f, lo, blocked)
    ensures IterFree(f, lo, hi, blocked, n) == [lo] + IterFree(f, lo + 1, hi, blocked, n - 1)
  {
    var b2 := blocked + {Canon(Addr(f, lo))};
    IterSkip(f, lo, hi, b2, n - 1);
    forall v: nat | lo + 1 <= v <= hi ensures Free(f, v, b2) <==> Free(f, v, blocked) {
      CanonInjective(f, v, lo);
    }
    IterSameBlocked(f, lo + 1, hi, b2, blocked, n - 1);
  }

  /** One address of the pass, on top of what was collected before. */
  lemma IterNext(f: Family, cur: nat, hi: int, blocked: set<Addr>, out: seq<nat>, n: nat)
    requires |out| < n && cur <= hi
    ensures var more := if Free(f, cur, blocked) then out + [cur] else out;
            out + IterFree(f, cur, hi, blocked, n - |out|) == more + IterFree(f, cur + 1, hi, blocked, n - |more|)
  {
    if Free(f, cur, blocked) {
      IterTake(f, cur, hi, blocked, n - |out|);
      var rest := IterFree(f, cur + 1, hi, blocked, n - |out| - 1);
      assert out + ([cur] + rest) == (out + [cur]) + rest;
    } else {
      IterSkip(f, cur, hi, blocked, n - |out|);
    }
  }

  lemma IterDone(f: Family, lo: nat, hi: int, blocked: set<Addr>, n: nat)
    requires lo > hi || n == 0
    ensures IterFree(f, lo, hi, blocked, n) == []
  {}

  /** The iterated search yields free values of the range in strictly ascending order. */
  lemma {:induction false} IterFreeAscending(f: Family, lo: nat, hi: int, blocked: set<Addr>, n: nat)
    ensures var s := IterFree(f, lo, hi, blocked, n);
            && |s| <= n
            && (forall i :: 0 <= i < |s| ==> lo <= s[i] <= hi && Free(f, s[i], blocked))
            && (forall i, j :: 0 <= i < j < |s| ==> s[i] < s[j])
    decreases n, hi - lo
  {
    if n > 0 && lo <= hi {
      if Free(f, lo, blocked) {
        IterTake(f, lo, hi, blocked, n);
        IterFreeAscending(f, lo + 1, hi, blocked, n - 1);
      } else {
        IterSkip(f, lo, hi, blocked, n);
        IterFreeAscending(f, lo + 1, hi, blocked, n);
      }
    }
  }

  /** No free value is passed over: a missing one lies above a full answer. */
  lemma {:induction false} IterFreeComplete(f: Family, lo: nat, hi: int, blocked: set<Addr>, n: nat, v: nat)
    requires lo <= v <= hi && Free(f, v, blocked)
    ensures var s := IterFree(f, lo, hi, blocked, n);
            v in s || (|s| == n && forall i :: 0 <= i < n ==> s[i] < v)
    decreases n, hi - lo
  {
    if n > 0 && lo < v {
      if Free(f, lo, blocked) {
        IterTake(f, lo, hi, blocked, n);
        IterFreeComplete(f, lo + 1, hi, blocked, n - 1, v);
      } else {
        IterSkip(f, lo, hi, blocked, n);
        IterFreeComplete(f, lo + 1, hi, blocked, n, v);
      }
    }
  }

  /** ipnet.BulkFree: one pass over the range, equal to n first-free searches. */
  method BulkFree(b: Block, exclude: set<Addr>, gateway: Option<Addr>, skipFirst: int, skipLast: int, n: int)
    returns (r: Result<seq<nat>, Error>)
    ensures n <= 0 ==> r == Ok([])
    ensures n > 0 ==>
            var it := IterFree(b.family, BoundedLo(b, skipFirst), BoundedHi(b, skipLast), Blocked(exclude, gateway), n);
            r == if |it| == n then Ok(it) else Err(ErrExhausted)
  {
    if n <= 0 {
      return Ok([]);
    }
    var lo, hi := BoundedLo(b, skipFirst), BoundedHi(b, skipLast);
    var blocked := Blocked(exclude, gateway);
    var out: seq<nat> := [];
    var cur := lo;
    while cur <= hi && |out| < n
      invariant cur >= lo && |out| <= n
      invariant out + IterFree(b.family, cur, hi, blocked, n - |out|) == IterFree(b.family, lo, hi, blocked, n)
      decreases hi - cur
    {
      IterNext(b.family, cur, hi, blocked, out, n);
      if Free(b.family, cur, blocked) {
        out := out + [cur];
      }
      cur := cur + 1;
    }
    IterDone(b.family, cur, hi, blocked, n - |out|);
    assert out + [] == out;
    if |out| < n {
      return Err(ErrExhausted);
    }
    return Ok(out);
  }

  lemma BlockedAdd(exclude: set<Addr>, gateway: Option<Addr>, a: Addr)
    ensures Blocked(exclude + {a}, gateway) == Blocked(exclude, gateway) + {Canon(a)}
  {}

  /** addresses.freeCandidates: repeated searches over a growing local exclude set. */
  method FreeCandidates(b: Block, exclude: set<Addr>, gateway: Option<Addr>, skipFirst: int, skipLast: int, max: int)
    returns (out: seq<nat>)
    ensures max <= 0 ==> out == []
    ensures max > 0 ==>
            out == IterFree(b.family, BoundedLo(b, skipFirst), BoundedHi(b, skipLast), Blocked(exclude, gateway), max)
  {
    out := [];
    if max <= 0 {
      return;
    }
    ghost var f, lo, hi := b.family, BoundedLo(b, skipFirst), BoundedHi(b, skipLast);
    ghost var blocked := Blocked(exclude, gateway);
    ghost var want := IterFree(f, lo, hi, blocked, max);
    var local := exclude;
    while |out| < max
      invariant |out| <= max
      invariant blocked == Blocked(local, gateway)
      invariant out + IterFree(f, lo, hi, blocked, max - |out|) == want
    {
      var r, _ := FirstFree(b, local, gateway, skipFirst, skipLast);
      if r.None? {
        break;
      }
      BlockedAdd(local, gateway, Addr(b.family, r.value));
      IterFreeStep(f, lo, hi, blocked, out, max, r.value);
      blocked := blocked + {Canon(Addr(f, r.value))};
      out := out + [r.value];
      local := local + {Addr(b.family, r.value)};
    }
  }

  /** ipnet.Hosts: every usable host in order, refused beyond MAX_HOST_ENUMERATE. */
  method Hosts(b: Block) returns (r: Result<seq<nat>, Error>)
    ensures r == Err(ErrTooLarge) <==> HostHi(b) - HostLo(b) + 1 > 65536
    ensures r.Err? ==> r.error == ErrTooLarge
    ensures r.Ok? && HostLo(b) <= HostHi(b) + 1 ==> |r.value| == HostHi(b) - HostLo(b) + 1
    ensures r.Ok? ==> forall i :: 0 <= i < |r.value| ==> r.value[i] == HostLo(b) + i
    ensures r.Ok? && ValidBlock(b) ==> forall v: nat :: v in r.value <==> UsableHost(b, v)
  {
    var lo, hi := HostLo(b), HostHi(b);
    var count := hi - lo + 1;
    if count > MAX_HOST_ENUMERATE {
      return Err(ErrTooLarge);
    }
    var out: seq<nat> := [];
    var cur := lo;
    while |out| < count
      invariant |out| <= count || count < 0
      invariant count < 0 ==> out == []
      invariant cur == lo + |out|
      invariant forall i :: 0 <= i < |out| ==> out[i] == lo + i
    {
      out := out + [cur];
      cur := cur + 1;
    }
    if ValidBlock(b) { CountsUsable(b, out); }
    return Ok(out);
  }

  lemma CountsUsable(b: Block, out: seq<nat>)
    requires ValidBlock(b) && |out| == HostHi(b) - HostLo(b) + 1
    requires forall i :: 0 <= i < |out| ==> out[i] == HostLo(b) + i
    ensures forall v: nat :: v in out <==> UsableHost(b, v)
  {
    forall v: nat ensures v in out <==> UsableHost(b, v) {
      RangeIsUsable(b, v);
      if UsableHost(b, v) { assert out[v - HostLo(b)] == v; }
    }
  }

  /** A usable range is never empty and stays inside its block. */
  lemma HostRangeFits(b: Block)
    requires ValidBlock(b)
    ensures b.base <= HostLo(b) <= HostHi(b) < b.base + Size(b)
  {
    if b.family == V4 && b.prefix < 31 {
      Pow2Monotone(2, 32 - b.prefix);
    } else if b.family == V6 && b.prefix < 127 {
      Pow2Monotone(1, 128 - b.prefix);
    }
  }
}
