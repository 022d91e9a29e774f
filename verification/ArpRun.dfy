/** The ARP planner and its store as the code runs them. */
module ArpRun {
  import opened Wrappers
  import opened Ipnet
  import opened Arp
  import opened ArpSafety
  import opened ArpFilter
  import FreeSearch

  // ---- sorted lists are determined by their elements

  predicate Strict(ips: seq<Addr>) {
    forall i, j :: 0 <= i < j < |ips| ==> Before(ips[i], ips[j])
  }

  lemma {:induction false} SameIps(a: seq<Addr>, b: seq<Addr>)
    requires Strict(a) && Strict(b) && forall ip :: ip in a <==> ip in b
    ensures a == b
  {
    assert a != [] ==> a[0] in a;
    assert b != [] ==> b[0] in b;
    if a != [] && b != [] {
      assert a[0] == b[0];
      forall ip ensures ip in a[1..] <==> ip in b[1..] {
        TailIps(a, ip);
        TailIps(b, ip);
      }
      SameIps(a[1..], b[1..]);
    }
  }

  lemma TailIps(a: seq<Addr>, ip: Addr)
    requires Strict(a) && a != []
    ensures ip in a[1..] <==> ip in a && ip != a[0]
  {
    if ip in a && ip != a[0] {
      var i :| 0 <= i < |a| && a[i] == ip;
      assert a[1..][i - 1] == ip;
    }
  }

  lemma {:induction false} InsertStrict(ips: seq<Addr>, ip: Addr)
    requires Strict(ips)
    ensures Strict(InsertIp(ips, ip)) && forall x :: x in InsertIp(ips, ip) <==> x == ip || x in ips
  {
    if ips != [] {
      assert ips == [ips[0]] + ips[1..];
      if ip != ips[0] && !Before(ip, ips[0]) {
        InsertStrict(ips[1..], ip);
        var r := InsertIp(ips[1..], ip);
        forall i | 0 <= i < |r| ensures Before(ips[0], r[i]) { assert r[i] in r; }
      }
    }
  }

  lemma {:induction false} IpsStrict(cands: seq<Candidate>, n: nat)
    requires n <= |cands|
    ensures Strict(Ips(cands, n)) && forall ip :: ip in Ips(cands, n) <==> exists c :: c in cands[..n] && c.ip == ip
  {
    if n > 0 {
      IpsStrict(cands, n - 1);
      InsertStrict(Ips(cands, n - 1), cands[n - 1].ip);
      assert cands[..n] == cands[..n - 1] + [cands[n - 1]];
    }
  }

  // ---- reading

  method ReadObservations(inp: Input) returns (x: Read)
    ensures x == ReadAll(inp, ByDevice(inp.observations), |ByDevice(inp.observations)|)
    ensures forall c :: c in x.cands <==>
              exists o, k :: o in inp.observations && 0 <= k < |o.entries| && Gives(o.entries[k], o.device, inp, c)
    ensures forall w :: Count(x.ignored, w) == Tally(ByDevice(inp.observations), |ByDevice(inp.observations)|, inp, w)
  {
    var obs := ByDevice(inp.observations);
    x := Read(0, map[], []);
    for k := 0 to |obs|
      invariant x == ReadAll(inp, obs, k)
    {
      var o := obs[k];
      ghost var start := x;
      for j := 0 to |o.entries|
        invariant x == ReadEntries(start, o, inp, j)
      {
        var e := o.entries[j];
        x := x.(entries := x.entries + 1);
        var why := Reject(e, o.device, inp.excluded, inp.network);
        if why.Some? {
          x := x.(ignored := Bump(x.ignored, why.value));
        } else if e.ip.Some? && e.mac.Some? {
          x := x.(cands := x.cands + [Candidate(FreeSearch.Canon(e.ip.value), e.mac.value, o.device)]);
        }
      }
    }
    ReadExactly(inp);
  }

  lemma ReadExactly(inp: Input)
    ensures var obs := ByDevice(inp.observations);
            var x := ReadAll(inp, obs, |obs|);
            && (forall c :: c in x.cands <==> exists o, k ::
                  o in inp.observations && 0 <= k < |o.entries| && Gives(o.entries[k], o.device, inp, c))
            && (forall w :: Count(x.ignored, w) == Tally(obs, |obs|, inp, w))
  {
    var obs := ByDevice(inp.observations);
    var x := ReadAll(inp, obs, |obs|);
    forall c ensures c in x.cands <==> exists o, k ::
        o in inp.observations && 0 <= k < |o.entries| && Gives(o.entries[k], o.device, inp, c) {
      CandidatesExact(inp, c);
    }
    forall w ensures Count(x.ignored, w) == Tally(obs, |obs|, inp, w) { ReasonsCounted(obs, inp, |obs|, w); }
  }

  /** The counts grew by `n` for one reason and by nothing for the others. */
  ghost predicate Grew(ignored0: map<Why, nat>, ignored: map<Why, nat>, reason: Why, n: int) {
    forall w :: Count(ignored, w) == Count(ignored0, w) + if w == reason then n else 0
  }

  lemma GrewTotal(ignored0: map<Why, nat>, ignored: map<Why, nat>, reason: Why, n: int)
    requires Grew(ignored0, ignored, reason, n)
    ensures Total(ignored) == Total(ignored0) + n
  {}

  /** The addresses each MAC answers for. */
  method IndexAnswers(cands: seq<Candidate>) returns (ips: map<Mac, set<Addr>>)
    ensures forall m :: (if m in ips then ips[m] else {}) == Answers(cands, m)
  {
    ips := map[];
    for k := 0 to |cands|
      invariant forall m :: (if m in ips then ips[m] else {}) == Answers(cands[..k], m)
    {
      var c := cands[k];
      assert cands[..k + 1] == cands[..k] + [c];
      ips := ips[c.mac := (if c.mac in ips then ips[c.mac] else {}) + {c.ip}];
    }
    assert cands[..|cands|] == cands;
  }

  /** filterProxy: index the addresses per MAC, then drop the MACs that answer for too many. */
  method FilterProxy(cands: seq<Candidate>, threshold: int, ignored0: map<Why, nat>)
    returns (out: seq<Candidate>, ignored: map<Why, nat>)
    ensures out == Survivors(cands, threshold, |cands|)
    ensures Grew(ignored0, ignored, Proxy, |cands| - |out|)
  {
    var ips := IndexAnswers(cands);
    out, ignored := [], ignored0;
    for k := 0 to |cands|
      invariant out == Survivors(cands, threshold, k) && Grew(ignored0, ignored, Proxy, k - |out|)
    {
      var c := cands[k];
      assert c in cands && c.ip in Answers(cands, c.mac);
      if |ips[c.mac]| > threshold {
        ignored := Bump(ignored, Proxy);
      } else {
        out := out + [c];
      }
    }
  }

  // ---- placing

  ghost predicate Wins(winner: map<Addr, Candidate>, cands: seq<Candidate>) {
    forall ip :: (ip in winner <==> WinnerOf(cands, |cands|, ip).Some?)
      && (ip in winner ==> WinnerOf(cands, |cands|, ip) == Some(winner[ip]))
  }

  lemma WinsStep(winner: map<Addr, Candidate>, cands: seq<Candidate>, c: Candidate)
    requires Wins(winner, cands)
    ensures Wins(winner[c.ip := c], cands + [c])
  {
    forall ip ensures WinnerOf(cands + [c], |cands| + 1, ip) == if ip == c.ip then Some(c)
      else WinnerOf(cands, |cands|, ip) {
      SamePrefix(cands, cands + [c], |cands|, ip);
    }
  }

  lemma {:induction false} SamePrefix(a: seq<Candidate>, b: seq<Candidate>, n: nat, ip: Addr)
    requires n <= |a| && n <= |b| && a[..n] == b[..n]
    ensures WinnerOf(a, n, ip) == WinnerOf(b, n, ip)
  {
    if n > 0 {
      assert a[..n][n - 1] == a[n - 1] && b[..n][n - 1] == b[n - 1];
      assert a[..n - 1] == a[..n][..n - 1] && b[..n - 1] == b[..n][..n - 1];
      SamePrefix(a, b, n - 1, ip);
    }
  }

  /** Placement so far: the winners among the first `k` candidates that lie in a subnet. */
  ghost predicate PlacedTo(inp: Input, cands: seq<Candidate>, k: nat, winner: map<Addr, Candidate>,
                           ignored0: map<Why, nat>, ignored: map<Why, nat>)
    requires k <= |cands|
  {
    var inside := Inside(inp.subnets, cands, k);
    Wins(winner, inside) && Grew(ignored0, ignored, Outside, k - |inside|)
  }

  method Place(inp: Input, cands: seq<Candidate>, ignored0: map<Why, nat>)
    returns (winner: map<Addr, Candidate>, ignored: map<Why, nat>)
    ensures PlacedTo(inp, cands, |cands|, winner, ignored0, ignored)
  {
    winner, ignored := map[], ignored0;
    for k := 0 to |cands|
      invariant PlacedTo(inp, cands, k, winner, ignored0, ignored)
    {
      winner, ignored := PlaceOne(inp, cands, k, winner, ignored, ignored0);
    }
  }

  method PlaceOne(inp: Input, cands: seq<Candidate>, k: nat, w0: map<Addr, Candidate>, i0: map<Why, nat>,
                  ghost start: map<Why, nat>)
    returns (winner: map<Addr, Candidate>, ignored: map<Why, nat>)
    requires k < |cands| && PlacedTo(inp, cands, k, w0, start, i0)
    ensures PlacedTo(inp, cands, k + 1, winner, start, ignored)
  {
    var c := cands[k];
    winner, ignored := w0, i0;
    if PlaceOf(inp.subnets, c.ip).None? {
      ignored := Bump(ignored, Outside);
      assert Inside(inp.subnets, cands, k + 1) == Inside(inp.subnets, cands, k);
    } else {
      WinsStep(winner, Inside(inp.subnets, cands, k), c);
      winner := winner[c.ip := c];
    }
  }

  /** The winners' addresses in order, from whatever order the map yields them. */
  method SortedKeys(winner: map<Addr, Candidate>) returns (ips: seq<Addr>)
    ensures Strict(ips) && forall ip :: ip in ips <==> ip in winner
  {
    ips := [];
    var todo, done: set<Addr> := winner.Keys, {};
    while todo != {}
      invariant todo !! done && todo + done == winner.Keys
      invariant Strict(ips) && forall ip :: ip in ips <==> ip in done
      decreases todo
    {
      var ip :| ip in todo;
      InsertStrict(ips, ip);
      ips := InsertIp(ips, ip);
      todo, done := todo - {ip}, done + {ip};
    }
  }

  lemma KeysAreIps(winner: map<Addr, Candidate>, cands: seq<Candidate>, ips: seq<Addr>)
    requires Wins(winner, cands) && Strict(ips) && forall ip :: ip in ips <==> ip in winner
    ensures ips == Ips(cands, |cands|)
  {
    IpsStrict(cands, |cands|);
    assert cands[..|cands|] == cands;
    forall ip ensures ip in ips <==> ip in Ips(cands, |cands|) {
      var w := WinnerOf(cands, |cands|, ip);
      assert w.Some? ==> w.value in cands;
    }
    SameIps(ips, Ips(cands, |cands|));
  }

  /** Entries are counted by what is wrong with them, candidates by what stops them later. */
  ghost predicate Counted(inp: Input, ignored: map<Why, nat>) {
    var obs := ByDevice(inp.observations);
    forall w :: Count(ignored, w) == match w
                                     case Proxy => |Candidates(inp)| - |Filtered(inp)|
                                     case Outside => |Filtered(inp)| - |PlacedOf(inp)|
                                     case _ => Tally(obs, |obs|, inp, w)
  }

  lemma CountsAddUp(inp: Input, i0: map<Why, nat>, i1: map<Why, nat>, i2: map<Why, nat>)
    requires var obs := ByDevice(inp.observations); forall w :: Count(i0, w) == Tally(obs, |obs|, inp, w)
    requires Grew(i0, i1, Proxy, |Candidates(inp)| - |Filtered(inp)|)
    requires Grew(i1, i2, Outside, |Filtered(inp)| - |PlacedOf(inp)|)
    ensures Counted(inp, i2) && Total(i2) + |PlacedOf(inp)| == Total(i0) + |Candidates(inp)|
  {
    var obs := ByDevice(inp.observations);
    NoneYet(obs, |obs|, inp, Proxy);
    NoneYet(obs, |obs|, inp, Outside);
    GrewTotal(i0, i1, Proxy, |Candidates(inp)| - |Filtered(inp)|);
    GrewTotal(i1, i2, Outside, |Filtered(inp)| - |PlacedOf(inp)|);
  }

  /** arpplan.Build. */
  method Build(inp: Input, next: Id) returns (entries: nat, ignored: map<Why, nat>, acc: Acc)
    ensures acc == Plan(inp, next)
    ensures entries == ReadAll(inp, ByDevice(inp.observations), |ByDevice(inp.observations)|).entries
    ensures entries == Total(ignored) + |PlacedOf(inp)|
    ensures Counted(inp, ignored)
  {
    var x := ReadObservations(inp);
    ReadCounts(inp, ByDevice(inp.observations), |ByDevice(inp.observations)|);
    entries := x.entries;
    var cands, ignored1 := FilterProxy(x.cands, Threshold(inp), x.ignored);
    var winner, ignored2 := Place(inp, cands, ignored1);
    ignored := ignored2;
    CountsAddUp(inp, x.ignored, ignored1, ignored2);
    var ips := SortedKeys(winner);
    KeysAreIps(winner, PlacedOf(inp), ips);
    acc := PlanWinners(inp, next, winner, ips);
  }

  method PlanWinners(inp: Input, next: Id, winner: map<Addr, Candidate>, ips: seq<Addr>) returns (acc: Acc)
    requires Wins(winner, PlacedOf(inp)) && forall ip :: ip in ips <==> ip in winner
    ensures acc == PlanIps(next, inp, PlacedOf(inp), ips, |ips|)
  {
    acc := Acc(next, [], 0, 0);
    for k := 0 to |ips|
      invariant acc == PlanIps(next, inp, PlacedOf(inp), ips, k)
    {
      assert ips[k] in ips;
      var c := winner[ips[k]];
      acc := PlanIp(acc, inp, c);
    }
  }

  // ---- the store

  class ArpStore {
    var rows: map<Id, Row>
    var subnets: set<Id>
    var log: seq<Audit>

    function Data(): Store
      reads this
    {
      Store(rows, subnets, log)
    }

    method ApplyOp(op: Op) returns (ran: bool)
      modifies this`rows
      ensures ran == Runs(old(Data()), op)
      ensures !ran ==> Data() == old(Data())
      ensures ran ==> rows == old(rows)[op.address := if op.kind == Create then CreatedRow(op)
            else Written(old(rows)[op.address], op)]
    {
      if op.kind == Create {
        if TextTaken(rows, op.text) || op.subnet !in subnets { return false; }
        if op.address in rows { return false; }
        rows := rows[op.address := CreatedRow(op)];
        return true;
      }
      if op.address !in rows { return false; }
      var a := rows[op.address];
      match op.kind {
        case Fill | Update =>
          if !ArpOwned(a) { return false; }
          a := a.(mac := Canonical(op.mac), source := SrcArp, sourceDevice := op.device, seenAt := Some(op.at),
            conflict := NoMac);
        case Conflict =>
          if ArpOwned(a) { return false; }
          a := a.(conflict := Canonical(op.mac));
        case ClearConflict =>
          a := a.(conflict := NoMac, seenAt := Some(op.at));
        case Touch =>
          a := a.(seenAt := Some(op.at));
          if a.source == SrcArp { a := a.(sourceDevice := op.device); }
        case Create =>
      }
      rows := rows[op.address := a];
      return true;
    }

    method ApplyARP(ops: seq<Op>)
      modifies this
      ensures Data() == ApplyAll(old(Data()), ops, |ops|)
      ensures Respects(old(Data()), Data())
      ensures log == old(log) + RanAudit(old(Data()), ops, |ops|)
    {
      for k := 0 to |ops|
        invariant Data() == ApplyAll(old(Data()), ops, k)
      {
        var ran := ApplyOp(ops[k]);
        if ran { log := log + ops[k].audit; }
      }
      NeverOverwrites(old(Data()), ops, |ops|);
      NoSilentAudit(old(Data()), ops, |ops|);
    }
  }
}
