/** Which ARP entries become candidates, and how many are ignored for each reason, byte by byte. */
module ArpFilter {
  import opened Wrappers
  import opened Ipnet
  import opened Arp
  import FreeSearch
  import Placement

  // ---- hardware addresses

  predicate ZeroMac(m: Mac) {
    m.b0 == 0 && m.b1 == 0 && m.b2 == 0 && m.b3 == 0 && m.b4 == 0 && m.b5 == 0
  }

  /** 00:00:5e:00:01:xx, 00:00:5e:00:02:xx, 00:00:0c:07:ac:xx and 00:00:0c:9f:f0:00 to 00:00:0c:9f:ff:ff. */
  predicate RedundancyMac(m: Mac) {
    && m.b0 == 0x00 && m.b1 == 0x00
    && (|| (m.b2 == 0x5e && m.b3 == 0x00 && 0x01 <= m.b4 <= 0x02)
        || (m.b2 == 0x0c && m.b3 == 0x07 && m.b4 == 0xac)
        || (m.b2 == 0x0c && m.b3 == 0x9f && 0xf0 <= m.b4 <= 0xff))
  }

  /** The hardware address of one end device. */
  predicate EndDevice(m: Mac, network: set<Mac>) {
    !ZeroMac(m) && m.b0 % 2 == 0 && !RedundancyMac(m) && m !in network
  }

  /** The reasons, each with what the earlier ones leave. */
  predicate Because(w: Why, e: Entry, device: Id, inp: Input) {
    match w
    case Excluded => device in inp.excluded
    case Invalid => device !in inp.excluded && (e.ip.None? || e.mac.None? || ZeroMac(e.mac.value))
    case Multicast => Readable(e, device, inp) && e.mac.value.b0 % 2 == 1
    case VirtualRouter => Readable(e, device, inp) && RedundancyMac(e.mac.value)
    case NetworkDevice =>
      && Readable(e, device, inp) && e.mac.value in inp.network
      && e.mac.value.b0 % 2 == 0 && !RedundancyMac(e.mac.value)
    case Proxy => false
    case Outside => false
  }

  predicate Readable(e: Entry, device: Id, inp: Input) {
    device !in inp.excluded && e.ip.Some? && e.mac.Some? && !ZeroMac(e.mac.value)
  }

  /** An entry is read as this candidate. */
  predicate Gives(e: Entry, device: Id, inp: Input, c: Candidate) {
    && device !in inp.excluded && e.ip.Some? && e.mac == Some(c.mac) && EndDevice(c.mac, inp.network)
    && c.ip == FreeSearch.Canon(e.ip.value) && c.device == device
  }

  lemma ReasonIs(e: Entry, device: Id, inp: Input)
    ensures var why := Reject(e, device, inp.excluded, inp.network);
            && (forall w :: why == Some(w) <==> Because(w, e, device, inp))
            && (why.None? ==> e.ip.Some? && e.mac.Some?)
            && (why.None? <==> exists c :: Gives(e, device, inp, c))
  {
    if e.ip.Some? && e.mac.Some? {
      var c := Candidate(FreeSearch.Canon(e.ip.value), e.mac.value, device);
      assert Reject(e, device, inp.excluded, inp.network).None? ==> Gives(e, device, inp, c);
    }
  }

  // ---- one entry

  lemma EntryGives(x: Read, e: Entry, device: Id, inp: Input, c: Candidate)
    ensures c in ReadEntry(x, e, device, inp).cands <==> c in x.cands || Gives(e, device, inp, c)
  {
    ReasonIs(e, device, inp);
  }

  lemma EntryCounts(x: Read, e: Entry, device: Id, inp: Input, w: Why)
    ensures Count(ReadEntry(x, e, device, inp).ignored, w)
         == Count(x.ignored, w) + if Because(w, e, device, inp) then 1 else 0
  {
    ReasonIs(e, device, inp);
  }

  // ---- all entries

  ghost predicate GivenBy(o: Observation, n: nat, inp: Input, c: Candidate)
    requires n <= |o.entries|
  {
    exists k :: 0 <= k < n && Gives(o.entries[k], o.device, inp, c)
  }

  function TallyOf(o: Observation, n: nat, inp: Input, w: Why): nat
    requires n <= |o.entries|
  {
    if n == 0 then 0
    else TallyOf(o, n - 1, inp, w) + if Because(w, o.entries[n - 1], o.device, inp) then 1 else 0
  }

  /** How many entries are ignored for a reason. */
  function Tally(obs: seq<Observation>, n: nat, inp: Input, w: Why): nat
    requires n <= |obs|
  {
    if n == 0 then 0 else Tally(obs, n - 1, inp, w) + TallyOf(obs[n - 1], |obs[n - 1].entries|, inp, w)
  }

  lemma {:induction false} EntriesGive(x: Read, o: Observation, inp: Input, n: nat, c: Candidate)
    requires n <= |o.entries|
    ensures c in ReadEntries(x, o, inp, n).cands <==> c in x.cands || GivenBy(o, n, inp, c)
  {
    if n > 0 {
      EntriesGive(x, o, inp, n - 1, c);
      EntryGives(ReadEntries(x, o, inp, n - 1), o.entries[n - 1], o.device, inp, c);
    }
  }

  lemma {:induction false} EntriesCount(x: Read, o: Observation, inp: Input, n: nat, w: Why)
    requires n <= |o.entries|
    ensures Count(ReadEntries(x, o, inp, n).ignored, w) == Count(x.ignored, w) + TallyOf(o, n, inp, w)
  {
    if n > 0 {
      EntriesCount(x, o, inp, n - 1, w);
      EntryCounts(ReadEntries(x, o, inp, n - 1), o.entries[n - 1], o.device, inp, w);
    }
  }

  ghost predicate Given(obs: seq<Observation>, inp: Input, c: Candidate) {
    exists o :: o in obs && GivenBy(o, |o.entries|, inp, c)
  }

  lemma {:induction false} AllGive(obs: seq<Observation>, inp: Input, n: nat, c: Candidate)
    requires n <= |obs|
    ensures c in ReadAll(inp, obs, n).cands <==> Given(obs[..n], inp, c)
  {
    if n > 0 {
      var o := obs[n - 1];
      assert obs[..n] == obs[..n - 1] + [o];
      AllGive(obs, inp, n - 1, c);
      EntriesGive(ReadAll(inp, obs, n - 1), o, inp, |o.entries|, c);
      assert GivenBy(o, |o.entries|, inp, c) ==> o in obs[..n];
    }
  }

  /** For each reason, exactly the entries it applies to are counted. */
  lemma {:induction false} ReasonsCounted(obs: seq<Observation>, inp: Input, n: nat, w: Why)
    requires n <= |obs|
    ensures Count(ReadAll(inp, obs, n).ignored, w) == Tally(obs, n, inp, w)
  {
    if n > 0 {
      ReasonsCounted(obs, inp, n - 1, w);
      EntriesCount(ReadAll(inp, obs, n - 1), obs[n - 1], inp, |obs[n - 1].entries|, w);
    }
  }

  lemma {:induction false} NoneOf(o: Observation, n: nat, inp: Input, w: Why)
    requires n <= |o.entries| && (w == Proxy || w == Outside)
    ensures TallyOf(o, n, inp, w) == 0
  {
    if n > 0 { NoneOf(o, n - 1, inp, w); }
  }

  /** Reading an entry never blames its answers or its place. */
  lemma {:induction false} NoneYet(obs: seq<Observation>, n: nat, inp: Input, w: Why)
    requires n <= |obs| && (w == Proxy || w == Outside)
    ensures Tally(obs, n, inp, w) == 0
  {
    if n > 0 {
      NoneYet(obs, n - 1, inp, w);
      NoneOf(obs[n - 1], |obs[n - 1].entries|, inp, w);
    }
  }

  // ---- the observations as they arrive

  lemma {:induction false} InsertHas(obs: seq<Observation>, o: Observation, x: Observation)
    ensures x in InsertObs(obs, o) <==> x == o || x in obs
  {
    if obs != [] {
      assert obs == obs[..|obs| - 1] + [obs[|obs| - 1]];
      InsertHas(obs[..|obs| - 1], o, x);
    }
  }

  lemma {:induction false} ByDeviceHas(obs: seq<Observation>, x: Observation)
    ensures x in ByDevice(obs) <==> x in obs
  {
    if obs != [] {
      assert obs == obs[..|obs| - 1] + [obs[|obs| - 1]];
      ByDeviceHas(obs[..|obs| - 1], x);
      InsertHas(ByDevice(obs[..|obs| - 1]), obs[|obs| - 1], x);
    }
  }

  function Candidates(inp: Input): seq<Candidate> {
    ReadAll(inp, ByDevice(inp.observations), |ByDevice(inp.observations)|).cands
  }

  /**
   The candidates are exactly the entries of devices not excluded with a readable address and the
   hardware address of an end device, under the address IPv4-mapped ones stand for.
   */
  lemma CandidatesExact(inp: Input, c: Candidate)
    ensures c in Candidates(inp) <==>
            exists o, k :: o in inp.observations && 0 <= k < |o.entries| && Gives(o.entries[k], o.device, inp, c)
  {
    var obs := ByDevice(inp.observations);
    AllGive(obs, inp, |obs|, c);
    assert obs[..|obs|] == obs;
    forall o ensures o in obs <==> o in inp.observations { ByDeviceHas(inp.observations, o); }
  }

  // ---- the last device wins

  predicate DeviceOrder(cands: seq<Candidate>) {
    forall i, j :: 0 <= i < j < |cands| ==> cands[i].device <= cands[j].device
  }

  predicate ObsOrder(obs: seq<Observation>) {
    forall i, j :: 0 <= i < j < |obs| ==> obs[i].device <= obs[j].device
  }

  lemma {:induction false} InsertOrder(obs: seq<Observation>, o: Observation)
    requires ObsOrder(obs)
    ensures ObsOrder(InsertObs(obs, o))
  {
    if obs != [] && o.device < obs[|obs| - 1].device {
      var init, last := obs[..|obs| - 1], obs[|obs| - 1];
      InsertOrder(init, o);
      var r := InsertObs(init, o);
      forall i | 0 <= i < |r| ensures r[i].device <= last.device {
        InsertHas(init, o, r[i]);
        assert r[i] in init ==> exists k :: 0 <= k < |init| && init[k] == r[i];
      }
    }
  }

  lemma {:induction false} ByDeviceOrder(obs: seq<Observation>)
    ensures ObsOrder(ByDevice(obs))
  {
    if obs != [] {
      ByDeviceOrder(obs[..|obs| - 1]);
      InsertOrder(ByDevice(obs[..|obs| - 1]), obs[|obs| - 1]);
    }
  }

  lemma {:induction false} EntriesOrder(x: Read, o: Observation, inp: Input, n: nat)
    requires n <= |o.entries| && DeviceOrder(x.cands) && forall c :: c in x.cands ==> c.device <= o.device
    ensures var y := ReadEntries(x, o, inp, n);
            DeviceOrder(y.cands) && forall c :: c in y.cands ==> c.device <= o.device
  {
    if n > 0 { EntriesOrder(x, o, inp, n - 1); }
  }

  lemma {:induction false} AllOrder(obs: seq<Observation>, inp: Input, n: nat)
    requires n <= |obs| && ObsOrder(obs)
    ensures var y := ReadAll(inp, obs, n);
            DeviceOrder(y.cands) && forall c, k :: c in y.cands && n <= k < |obs| ==> c.device <= obs[k].device
  {
    if n > 0 {
      AllOrder(obs, inp, n - 1);
      EntriesOrder(ReadAll(inp, obs, n - 1), obs[n - 1], inp, |obs[n - 1].entries|);
    }
  }

  /** A later candidate never comes from a lower device id. */
  lemma CandidatesOrdered(inp: Input)
    ensures DeviceOrder(Candidates(inp))
  {
    var obs := ByDevice(inp.observations);
    ByDeviceOrder(inp.observations);
    AllOrder(obs, inp, |obs|);
  }

  lemma {:induction false} SurvivorsOrder(cands: seq<Candidate>, threshold: int, n: nat)
    requires n <= |cands| && DeviceOrder(cands)
    ensures var s := Survivors(cands, threshold, n);
            DeviceOrder(s) && forall c, k :: c in s && n <= k < |cands| ==> c.device <= cands[k].device
  {
    if n > 0 { SurvivorsOrder(cands, threshold, n - 1); }
  }

  lemma {:induction false} InsideOrder(subnets: seq<Placement.Candidate>, cands: seq<Candidate>, n: nat)
    requires n <= |cands| && DeviceOrder(cands)
    ensures var s := Inside(subnets, cands, n);
            DeviceOrder(s) && forall c, k :: c in s && n <= k < |cands| ==> c.device <= cands[k].device
  {
    if n > 0 { InsideOrder(subnets, cands, n - 1); }
  }

  lemma {:induction false} WinnerIsLast(cands: seq<Candidate>, n: nat, ip: Addr, c: Candidate)
    requires n <= |cands| && DeviceOrder(cands) && c in cands[..n] && c.ip == ip
    ensures WinnerOf(cands, n, ip).Some? && c.device <= WinnerOf(cands, n, ip).value.device
  {
    assert cands[..n] == cands[..n - 1] + [cands[n - 1]];
    if cands[n - 1].ip == ip {
      var k :| 0 <= k < n && cands[k] == c;
    } else {
      WinnerIsLast(cands, n - 1, ip, c);
    }
  }

  /** Which candidates reach placement: their MAC answers for few enough addresses (8 unless configured). */
  lemma {:induction false} SurvivorsExact(cands: seq<Candidate>, threshold: int, n: nat, c: Candidate)
    requires n <= |cands|
    ensures c in Survivors(cands, threshold, n) <==>
            c in cands[..n] && |set d | d in cands && d.mac == c.mac :: d.ip| <= threshold
  {
    if n > 0 {
      assert cands[..n] == cands[..n - 1] + [cands[n - 1]];
      SurvivorsExact(cands, threshold, n - 1, c);
    }
  }

  lemma {:induction false} InsideExact(subnets: seq<Placement.Candidate>, cands: seq<Candidate>, n: nat, c: Candidate)
    requires n <= |cands|
    ensures c in Inside(subnets, cands, n) <==>
            c in cands[..n] && exists s :: s in subnets && Placement.Holds(s, FreeSearch.Canon(c.ip))
  {
    if n > 0 {
      assert cands[..n] == cands[..n - 1] + [cands[n - 1]];
      InsideExact(subnets, cands, n - 1, c);
    }
  }

  /** The candidates planned: few enough answers, and inside a known subnet. */
  lemma PlacedExact(inp: Input, c: Candidate)
    ensures c in PlacedOf(inp) <==>
            && c in Candidates(inp)
            && |set d | d in Candidates(inp) && d.mac == c.mac :: d.ip|
                 <= (if inp.threshold < 1 then 8 else inp.threshold)
            && exists s :: s in inp.subnets && Placement.Holds(s, FreeSearch.Canon(c.ip))
  {
    var cands, f := Candidates(inp), Filtered(inp);
    SurvivorsExact(cands, Threshold(inp), |cands|, c);
    InsideExact(inp.subnets, f, |f|, c);
    assert cands[..|cands|] == cands && f[..|f|] == f;
  }

  /** What an address is learned from: the planned candidate of the highest device id that has one for it. */
  lemma WinnerIsHighest(inp: Input, c: Candidate)
    requires c in PlacedOf(inp)
    ensures var w := WinnerOf(PlacedOf(inp), |PlacedOf(inp)|, c.ip);
            w.Some? && w.value in PlacedOf(inp) && w.value.ip == c.ip && c.device <= w.value.device
  {
    var cands, f, placed := Candidates(inp), Filtered(inp), PlacedOf(inp);
    CandidatesOrdered(inp);
    SurvivorsOrder(cands, Threshold(inp), |cands|);
    InsideOrder(inp.subnets, f, |f|);
    assert placed[..|placed|] == placed;
    WinnerIsLast(placed, |placed|, c.ip, c);
  }
}
