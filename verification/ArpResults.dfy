/** What ARP collection promises. */
module ArpResults {
  import opened Wrappers
  import opened Ipnet
  import opened Arp
  import opened ArpSafety
  import opened ArpRun
  import opened ArpReplay
  import Allocator
  import FreeSearch
  import Placement

  // ---- replay

  ghost predicate Canonicals(cands: seq<Candidate>) {
    forall c :: c in cands ==> FreeSearch.Canon(c.ip) == c.ip
  }

  lemma {:induction false} ReadEntriesCanon(x: Read, o: Observation, inp: Input, n: nat)
    requires n <= |o.entries| && Canonicals(x.cands)
    ensures Canonicals(ReadEntries(x, o, inp, n).cands)
  {
    if n > 0 {
      ReadEntriesCanon(x, o, inp, n - 1);
      var e := o.entries[n - 1];
      if e.ip.Some? { Allocator.CanonCanon(e.ip.value); }
    }
  }

  lemma {:induction false} ReadCanon(inp: Input, obs: seq<Observation>, n: nat)
    requires n <= |obs|
    ensures Canonicals(ReadAll(inp, obs, n).cands)
  {
    if n > 0 {
      ReadCanon(inp, obs, n - 1);
      ReadEntriesCanon(ReadAll(inp, obs, n - 1), obs[n - 1], inp, |obs[n - 1].entries|);
    }
  }

  lemma {:induction false} InsideIn(subnets: seq<Placement.Candidate>, cands: seq<Candidate>, n: nat)
    requires n <= |cands|
    ensures forall c :: c in Inside(subnets, cands, n) ==> c in cands && PlaceOf(subnets, c.ip).Some?
  {
    if n > 0 { InsideIn(subnets, cands, n - 1); }
  }

  function PassOf(s: Store, inp: Input, next: Id): Pass {
    Pass(s, inp, next, PlacedOf(inp), Ips(PlacedOf(inp), |PlacedOf(inp)|))
  }

  lemma PassStarts(s: Store, inp: Input, next: Id)
    requires Loaded(s, inp, next)
    ensures Start(PassOf(s, inp, next))
  {
    var cands, placed := ReadAll(inp, ByDevice(inp.observations), |ByDevice(inp.observations)|).cands, PlacedOf(inp);
    ReadCanon(inp, ByDevice(inp.observations), |ByDevice(inp.observations)|);
    SurvivorsIn(cands, Threshold(inp), |cands|);
    InsideIn(inp.subnets, Filtered(inp), |Filtered(inp)|);
    IpsStrict(placed, |placed|);
    assert placed[..|placed|] == placed && cands[..|cands|] == cands;
    forall ip | ip in Ips(placed, |placed|)
      ensures FreeSearch.Canon(ip) == ip && PlaceOf(inp.subnets, ip).Some? && WinnerOf(placed, |placed|, ip).Some?
    {
      var c :| c in placed && c.ip == ip;
    }
  }

  /** Without interference every planned operation passes the store's guard. */
  lemma NothingSkipped(s: Store, inp: Input, next: Id, k: nat)
    requires Loaded(s, inp, next) && k < |Plan(inp, next).ops|
    ensures Runs(ApplyAll(s, Plan(inp, next).ops, k), Plan(inp, next).ops[k])
  {
    PassStarts(s, inp, next);
    NoneSkipped(PassOf(s, inp, next), |PassOf(s, inp, next).ips|);
  }

  /** Same observations and subnets, at any time, after the plan was applied. */
  ghost predicate Again(s: Store, inp: Input, next: Id, inp2: Input) {
    && inp2 == inp.(rows := inp2.rows, now := inp2.now)
    && Lists(inp2.rows, ApplyAll(s, Plan(inp, next).ops, |Plan(inp, next).ops|).rows)
  }

  lemma {:induction false} SameRead(inp: Input, inp2: Input, obs: seq<Observation>, n: nat)
    requires n <= |obs| && inp2.excluded == inp.excluded && inp2.network == inp.network
    ensures ReadAll(inp2, obs, n) == ReadAll(inp, obs, n)
  {
    if n > 0 {
      SameRead(inp, inp2, obs, n - 1);
      SameEntries(ReadAll(inp, obs, n - 1), obs[n - 1], inp, inp2, |obs[n - 1].entries|);
    }
  }

  lemma {:induction false} SameEntries(x: Read, o: Observation, inp: Input, inp2: Input, n: nat)
    requires n <= |o.entries| && inp2.excluded == inp.excluded && inp2.network == inp.network
    ensures ReadEntries(x, o, inp2, n) == ReadEntries(x, o, inp, n)
  {
    if n > 0 { SameEntries(x, o, inp, inp2, n - 1); }
  }

  /** Observing the same again after applying only confirms: nothing is applied, nothing created. */
  lemma Replay(s: Store, inp: Input, next: Id, inp2: Input, next2: Id)
    requires Loaded(s, inp, next) && Again(s, inp, next, inp2) && NewestFirst(inp.rows) && NewestFirst(inp2.rows)
    ensures Plan(inp2, next2).applied == 0 && Plan(inp2, next2).created == 0
    ensures forall op :: op in Plan(inp2, next2).ops ==> op.kind == Touch
  {
    var x := PassOf(s, inp, next);
    PassStarts(s, inp, next);
    SameRead(inp, inp2, ByDevice(inp.observations), |ByDevice(inp.observations)|);
    assert PlacedOf(inp2) == PlacedOf(inp);
    var tr := TraceOf(x, |x.ips|);
    OnlyTouches(x, tr, inp2, next2);
  }

  // ---- order of the observations

  predicate Devices(obs: seq<Observation>) {
    forall i, j :: 0 <= i < j < |obs| ==> obs[i].device != obs[j].device
  }

  predicate InOrder(obs: seq<Observation>) {
    forall i, j :: 0 <= i < j < |obs| ==> obs[i].device < obs[j].device
  }

  lemma {:induction false} InsertKeeps(obs: seq<Observation>, o: Observation)
    ensures multiset(InsertObs(obs, o)) == multiset(obs) + multiset{o}
  {
    if obs != [] && o.device < obs[|obs| - 1].device {
      assert obs == obs[..|obs| - 1] + [obs[|obs| - 1]];
      InsertKeeps(obs[..|obs| - 1], o);
    }
  }

  lemma {:induction false} InsertInOrder(obs: seq<Observation>, o: Observation)
    requires InOrder(obs) && forall x :: x in obs ==> x.device != o.device
    ensures InOrder(InsertObs(obs, o))
  {
    if obs != [] {
      var init, last := obs[..|obs| - 1], obs[|obs| - 1];
      assert last in obs;
      if o.device < last.device {
        InsertInOrder(init, o);
        InsertKeeps(init, o);
        var r := InsertObs(init, o);
        forall i | 0 <= i < |r| ensures r[i].device < last.device { assert r[i] in multiset(r); }
      }
    }
  }

  lemma {:induction false} SortedObs(obs: seq<Observation>)
    requires Devices(obs)
    ensures InOrder(ByDevice(obs)) && multiset(ByDevice(obs)) == multiset(obs)
  {
    if obs != [] {
      var init, last := obs[..|obs| - 1], obs[|obs| - 1];
      assert obs == init + [last];
      SortedObs(init);
      forall x | x in ByDevice(init) ensures x.device != last.device { assert x in multiset(ByDevice(init)); }
      InsertInOrder(ByDevice(init), last);
      InsertKeeps(ByDevice(init), last);
    }
  }

  lemma SameHead(a: seq<Observation>, b: seq<Observation>)
    requires InOrder(a) && InOrder(b) && multiset(a) == multiset(b) && a != [] && b != []
    ensures a[0] == b[0]
  {
    assert a[0] in multiset(b) && b[0] in multiset(a);
    var i :| 0 <= i < |b| && b[i] == a[0];
    var j :| 0 <= j < |a| && a[j] == b[0];
  }

  lemma {:induction false} SameObs(a: seq<Observation>, b: seq<Observation>)
    requires InOrder(a) && InOrder(b) && multiset(a) == multiset(b)
    ensures a == b
  {
    assert |a| == |multiset(a)| == |multiset(b)| == |b|;
    if a != [] {
      SameHead(a, b);
      assert a == [a[0]] + a[1..] && b == [b[0]] + b[1..];
      assert multiset(a[1..]) == multiset(a) - multiset{a[0]};
      assert multiset(b[1..]) == multiset(b) - multiset{b[0]};
      SameObs(a[1..], b[1..]);
    }
  }

  /** With one observation per device, the order they arrive in does not matter. */
  lemma OrderFree(inp: Input, inp2: Input, next: Id)
    requires Devices(inp.observations) && Devices(inp2.observations)
          && multiset(inp.observations) == multiset(inp2.observations)
    requires inp2 == inp.(observations := inp2.observations)
    ensures Plan(inp2, next) == Plan(inp, next)
  {
    SortedObs(inp.observations);
    SortedObs(inp2.observations);
    SameObs(ByDevice(inp.observations), ByDevice(inp2.observations));
    var obs := ByDevice(inp.observations);
    SameRead(inp, inp2, obs, |obs|);
    assert PlacedOf(inp2) == PlacedOf(inp);
    SamePlan(inp, inp2, next, PlacedOf(inp), Ips(PlacedOf(inp), |PlacedOf(inp)|),
      |Ips(PlacedOf(inp), |PlacedOf(inp)|)|);
  }

  lemma {:induction false} SamePlan(inp: Input, inp2: Input, next: Id, cands: seq<Candidate>, ips: seq<Addr>, n: nat)
    requires n <= |ips| && inp2 == inp.(observations := inp2.observations)
    ensures PlanIps(next, inp2, cands, ips, n) == PlanIps(next, inp, cands, ips, n)
  {
    if n > 0 { SamePlan(inp, inp2, next, cands, ips, n - 1); }
  }
}
