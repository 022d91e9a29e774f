/** What ARP data can never do, whatever operations arrive, and how entries are accounted for. */
module ArpSafety {
  import opened Wrappers
  import opened Arp

  // ---- provenance, for any list of operations

  /** A MAC that did not come from ARP. */
  predicate Foreign(a: Row) {
    a.mac != NoMac && a.source != SrcArp
  }

  /** Rows stay, their identity stays, and a foreign MAC stays with its source. */
  ghost predicate Respects(s: Store, t: Store) {
    forall i :: i in s.rows ==>
      && i in t.rows && t.rows[i].id == s.rows[i].id && t.rows[i].text == s.rows[i].text
          && t.rows[i].subnet == s.rows[i].subnet
      && t.rows[i].admin == s.rows[i].admin
      && (Foreign(s.rows[i]) ==> t.rows[i].mac == s.rows[i].mac && t.rows[i].source == s.rows[i].source)
  }

  /** However stale or repeated the operations are, no row is replaced and no foreign MAC is changed. */
  lemma {:induction false} NeverOverwrites(s: Store, ops: seq<Op>, n: nat)
    requires n <= |ops|
    ensures Respects(s, ApplyAll(s, ops, n))
  {
    if n > 0 { NeverOverwrites(s, ops, n - 1); }
  }

  /** Rows have ids of their own, texts of their own and known subnets. */
  ghost predicate Orderly(s: Store) {
    && (forall i :: i in s.rows ==> s.rows[i].subnet in s.subnets)
    && (forall i, j :: i in s.rows && j in s.rows && s.rows[i].text == s.rows[j].text ==> i == j)
  }

  lemma OneOrderly(s: Store, op: Op)
    requires Orderly(s)
    ensures Orderly(ApplyOne(s, op)) && ApplyOne(s, op).subnets == s.subnets
  {
    var t := ApplyOne(s, op);
    assert forall i :: i in t.rows && i in s.rows ==>
      t.rows[i].text == s.rows[i].text && t.rows[i].subnet == s.rows[i].subnet;
    assert op.kind == Create && Runs(s, op) ==> forall i :: i in s.rows ==> s.rows[i].text != op.text;
  }

  /** However stale or repeated the operations are, no address gets two rows and no row an unknown subnet. */
  lemma {:induction false} NeverDuplicates(s: Store, ops: seq<Op>, n: nat)
    requires n <= |ops| && Orderly(s)
    ensures Orderly(ApplyAll(s, ops, n))
  {
    if n > 0 {
      NeverDuplicates(s, ops, n - 1);
      OneOrderly(ApplyAll(s, ops, n - 1), ops[n - 1]);
    }
  }

  function RanAudit(s: Store, ops: seq<Op>, n: nat): seq<Audit>
    requires n <= |ops|
  {
    if n == 0 then []
    else RanAudit(s, ops, n - 1) + (if Runs(ApplyAll(s, ops, n - 1), ops[n - 1]) then ops[n - 1].audit else [])
  }

  /** The log grows by the rows of exactly the operations whose guard let them run. */
  lemma {:induction false} NoSilentAudit(s: Store, ops: seq<Op>, n: nat)
    requires n <= |ops|
    ensures ApplyAll(s, ops, n).log == s.log + RanAudit(s, ops, n)
  {
    if n == 0 {
      assert s.log + [] == s.log;
    } else {
      NoSilentAudit(s, ops, n - 1);
      var a := RanAudit(s, ops, n - 1);
      assert s.log + a + ops[n - 1].audit == s.log + (a + ops[n - 1].audit);
      assert a + [] == a;
    }
  }

  // ---- accounting

  function Total(m: map<Why, nat>): nat {
    Count(m, Excluded) + Count(m, Invalid) + Count(m, Multicast) + Count(m, VirtualRouter) + Count(m, NetworkDevice)
    + Count(m, Proxy) + Count(m, Outside)
  }

  lemma BumpTotal(m: map<Why, nat>, w: Why)
    ensures Total(Bump(m, w)) == Total(m) + 1
  {}

  lemma ReadEntryCounts(x: Read, e: Entry, device: Id, inp: Input)
    requires x.entries == Total(x.ignored) + |x.cands|
    ensures var y := ReadEntry(x, e, device, inp); y.entries == Total(y.ignored) + |y.cands|
  {
    var why := Reject(e, device, inp.excluded, inp.network);
    if why.Some? { BumpTotal(x.ignored, why.value); }
  }

  lemma {:induction false} ReadEntriesCount(x: Read, o: Observation, inp: Input, n: nat)
    requires n <= |o.entries| && x.entries == Total(x.ignored) + |x.cands|
    ensures var y := ReadEntries(x, o, inp, n); y.entries == Total(y.ignored) + |y.cands|
  {
    if n > 0 {
      ReadEntriesCount(x, o, inp, n - 1);
      ReadEntryCounts(ReadEntries(x, o, inp, n - 1), o.entries[n - 1], o.device, inp);
    }
  }

  lemma {:induction false} ReadCounts(inp: Input, obs: seq<Observation>, n: nat)
    requires n <= |obs|
    ensures var y := ReadAll(inp, obs, n); y.entries == Total(y.ignored) + |y.cands|
  {
    if n > 0 {
      ReadCounts(inp, obs, n - 1);
      ReadEntriesCount(ReadAll(inp, obs, n - 1), obs[n - 1], inp, |obs[n - 1].entries|);
    }
  }

  // ---- proxy ARP

  lemma {:induction false} SurvivorsIn(cands: seq<Candidate>, threshold: int, n: nat)
    requires n <= |cands|
    ensures forall c :: c in Survivors(cands, threshold, n) <==> c in cands[..n] && !IsProxy(cands, c.mac, threshold)
  {
    if n > 0 {
      SurvivorsIn(cands, threshold, n - 1);
      assert cands[..n] == cands[..n - 1] + [cands[n - 1]];
    }
  }

  lemma SubsetCard<T>(a: set<T>, b: set<T>)
    requires a <= b
    ensures |a| <= |b|
  {
    assert |b| == |a| + |b - a| by { assert b == a + (b - a); }
  }

  /** No surviving MAC answers for more than the threshold of addresses. */
  lemma ProxyBound(inp: Input, m: Mac)
    ensures |Answers(Filtered(inp), m)| <= Threshold(inp)
  {
    var cands := ReadAll(inp, ByDevice(inp.observations), |ByDevice(inp.observations)|).cands;
    SurvivorsIn(cands, Threshold(inp), |cands|);
    assert cands[..|cands|] == cands;
    if IsProxy(cands, m, Threshold(inp)) {
      assert Answers(Filtered(inp), m) == {};
    } else {
      assert Answers(Filtered(inp), m) <= Answers(cands, m);
      SubsetCard(Answers(Filtered(inp), m), Answers(cands, m));
    }
  }
}
