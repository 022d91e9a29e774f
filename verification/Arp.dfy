/**
 What ARP observations change (internal/arpplan): entries are filtered in stages, the last device
 to report an address wins, and each winner becomes at most one write.
 */
module Arp {
  import opened Wrappers
  import opened Ipnet
  import Allocator
  import FreeSearch
  import Placement

  type Id = nat
  type Time = int
  type Text = Allocator.Text

  /** A 6-byte hardware address. */
  datatype Mac = Mac(b0: nat, b1: nat, b2: nat, b3: nat, b4: nat, b5: nat)

  /** A stored MAC text: none, or what it parses to and how it is spelled (0 = canonical). */
  datatype MacText = NoMac | MacText(parsed: Option<Mac>, spelling: nat)

  function Canonical(m: Mac): MacText {
    MacText(Some(m), 0)
  }

  /** hostreport.NormalizeMAC of a stored text. */
  function Normal(t: MacText): MacText {
    if t.MacText? && t.parsed.Some? then Canonical(t.parsed.value) else NoMac
  }

  datatype Source = SrcNone | SrcManual | SrcAgent | SrcArp

  datatype Row = Row(id: Id, text: Text, subnet: Id, mac: MacText, source: Source, sourceDevice: Id,
                     seenAt: Option<Time>, conflict: MacText, admin: map<string, string>)

  /** One ARP table entry; None where the text does not parse. */
  datatype Entry = Entry(ip: Option<Addr>, mac: Option<Mac>)

  datatype Observation = Observation(device: Id, entries: seq<Entry>)

  datatype Input = Input(now: Time, observations: seq<Observation>, rows: seq<Row>, subnets: seq<Placement.Candidate>,
                         excluded: set<Id>, network: set<Mac>, threshold: int)

  datatype Why = Excluded | Invalid | Multicast | VirtualRouter | NetworkDevice | Proxy | Outside

  const DEFAULT_PROXY_THRESHOLD := 8

  function Threshold(inp: Input): int {
    if inp.threshold < 1 then DEFAULT_PROXY_THRESHOLD else inp.threshold
  }

  // ---- filters

  /** VRRP (00:00:5e:00:01/02:xx) and HSRP (00:00:0c:07:ac:xx, 00:00:0c:9f:f0:00 to ff:ff). */
  predicate IsVirtualRouter(m: Mac) {
    if m.b0 == 0 && m.b1 == 0 && m.b2 == 0x5e && m.b3 == 0 then m.b4 == 1 || m.b4 == 2
    else m.b0 == 0 && m.b1 == 0 && m.b2 == 0x0c && ((m.b3 == 0x07 && m.b4 == 0xac) || (m.b3 == 0x9f && m.b4 / 16 == 15))
  }

  /** Why an entry is not used, or None. */
  function Reject(e: Entry, device: Id, excluded: set<Id>, network: set<Mac>): Option<Why> {
    if device in excluded then Some(Excluded)
    else if e.ip.None? || e.mac.None? then Some(Invalid)
    else
      var m := e.mac.value;
      if m == Mac(0, 0, 0, 0, 0, 0) then Some(Invalid)
      else if m.b0 % 2 == 1 then Some(Multicast)
      else if IsVirtualRouter(m) then Some(VirtualRouter)
      else if m in network then Some(NetworkDevice)
      else None
  }

  datatype Candidate = Candidate(ip: Addr, mac: Mac, device: Id)

  /** Entries read, ignored counts and candidates so far. */
  datatype Read = Read(entries: nat, ignored: map<Why, nat>, cands: seq<Candidate>)

  function Count(m: map<Why, nat>, w: Why): nat {
    if w in m then m[w] else 0
  }

  function Bump(m: map<Why, nat>, w: Why): map<Why, nat> {
    m[w := Count(m, w) + 1]
  }

  function ReadEntry(x: Read, e: Entry, device: Id, inp: Input): Read {
    var why := Reject(e, device, inp.excluded, inp.network);
    var y := x.(entries := x.entries + 1);
    if why.Some? then y.(ignored := Bump(y.ignored, why.value))
    else if e.ip.Some? && e.mac.Some? then y.(cands := y.cands
      + [Candidate(FreeSearch.Canon(e.ip.value), e.mac.value, device)])
    else y
  }

  function ReadEntries(x: Read, o: Observation, inp: Input, n: nat): Read
    requires n <= |o.entries|
  {
    if n == 0 then x else ReadEntry(ReadEntries(x, o, inp, n - 1), o.entries[n - 1], o.device, inp)
  }

  function ReadAll(inp: Input, obs: seq<Observation>, n: nat): Read
    requires n <= |obs|
  {
    if n == 0 then Read(0, map[], []) else ReadEntries(ReadAll(inp, obs, n - 1), obs[n - 1], inp, |obs[n - 1].entries|)
  }

  /** The addresses a MAC answers for. */
  function Answers(cands: seq<Candidate>, m: Mac): set<Addr> {
    set c | c in cands && c.mac == m :: c.ip
  }

  predicate IsProxy(cands: seq<Candidate>, m: Mac, threshold: int) {
    |Answers(cands, m)| > threshold
  }

  function Survivors(cands: seq<Candidate>, threshold: int, n: nat): seq<Candidate>
    requires n <= |cands|
  {
    if n == 0 then []
    else Survivors(cands, threshold, n - 1) + (if IsProxy(cands, cands[n - 1].mac, threshold) then []
      else [cands[n - 1]])
  }

  function PlaceOf(subnets: seq<Placement.Candidate>, ip: Addr): Option<Id> {
    var m := Placement.MostSpecific(subnets, ip);
    if m.Some? then Some(m.value.id) else None
  }

  /** The candidates that lie in a subnet. */
  function Inside(subnets: seq<Placement.Candidate>, cands: seq<Candidate>, n: nat): seq<Candidate>
    requires n <= |cands|
  {
    if n == 0 then []
    else Inside(subnets, cands, n - 1) + (if PlaceOf(subnets, cands[n - 1].ip).Some? then [cands[n - 1]] else [])
  }

  /** Last one wins. */
  function WinnerOf(cands: seq<Candidate>, n: nat, ip: Addr): (w: Option<Candidate>)
    requires n <= |cands|
    ensures w.Some? ==> w.value in cands[..n] && w.value.ip == ip
    ensures w.None? ==> forall c :: c in cands[..n] ==> c.ip != ip
  {
    if n == 0 then None
    else
      assert cands[..n] == cands[..n - 1] + [cands[n - 1]];
      if cands[n - 1].ip == ip then Some(cands[n - 1]) else WinnerOf(cands, n - 1, ip)
  }

  // ---- observations in device order

  function InsertObs(obs: seq<Observation>, o: Observation): seq<Observation> {
    if obs == [] then [o]
    else if o.device < obs[|obs| - 1].device then InsertObs(obs[..|obs| - 1], o) + [obs[|obs| - 1]]
    else obs + [o]
  }

  /** sort.SliceStable by device id. */
  function ByDevice(obs: seq<Observation>): seq<Observation> {
    if obs == [] then [] else InsertObs(ByDevice(obs[..|obs| - 1]), obs[|obs| - 1])
  }

  predicate Before(a: Addr, b: Addr) {
    if a.family != b.family then a.family == V4 else a.value < b.value
  }

  function InsertIp(ips: seq<Addr>, ip: Addr): seq<Addr> {
    if ips == [] then [ip]
    else if ip == ips[0] then ips
    else if Before(ip, ips[0]) then [ip] + ips
    else [ips[0]] + InsertIp(ips[1..], ip)
  }

  /** The addresses to plan, each once, in address order. */
  function Ips(cands: seq<Candidate>, n: nat): seq<Addr>
    requires n <= |cands|
  {
    if n == 0 then [] else InsertIp(Ips(cands, n - 1), cands[n - 1].ip)
  }

  // ---- writes

  datatype Kind = Create | Fill | Update | ClearConflict | Touch | Conflict

  datatype Event = AddressCreated | MacLearned | MacChanged | MacConflict

  datatype Audit = Audit(event: Event, subject: Id)

  datatype Op = Op(kind: Kind, address: Id, text: Text, subnet: Id, mac: Mac, device: Id, at: Time, audit: seq<Audit>)

  /** The row holding an address (the last one listed). */
  function RowOf(rows: seq<Row>, n: nat, ip: Addr): (r: Option<Row>)
    requires n <= |rows|
    ensures r.Some? ==> r.value in rows[..n] && Holds(r.value, ip)
    ensures r.None? ==> forall a :: a in rows[..n] ==> !Holds(a, ip)
  {
    if n == 0 then None
    else
      assert rows[..n] == rows[..n - 1] + [rows[n - 1]];
      if Holds(rows[n - 1], ip) then Some(rows[n - 1]) else RowOf(rows, n - 1, ip)
  }

  predicate Holds(a: Row, ip: Addr) {
    a.text.addr.Some? && FreeSearch.Canon(a.text.addr.value) == ip
  }

  datatype Acc = Acc(next: Id, ops: seq<Op>, applied: nat, created: nat)

  function OpFor(kind: Kind, a: Id, subnet: Id, c: Candidate, now: Time, audit: seq<Audit>): Op {
    Op(kind, a, Allocator.Print(c.ip), subnet, c.mac, c.device, now, audit)
  }

  /** The provenance table: what an observation of `c` does to an existing row. */
  function RowOp(a: Row, c: Candidate, now: Time): Option<Op> {
    if a.mac == NoMac then Some(OpFor(Fill, a.id, a.subnet, c, now, [Audit(MacLearned, a.id)]))
    else if Normal(a.mac) == Canonical(c.mac) && a.conflict != NoMac
      then Some(OpFor(ClearConflict, a.id, a.subnet, c, now, []))
    else if Normal(a.mac) == Canonical(c.mac) then Some(OpFor(Touch, a.id, a.subnet, c, now, []))
    else if a.source == SrcArp then Some(OpFor(Update, a.id, a.subnet, c, now, [Audit(MacChanged, a.id)]))
    else if a.conflict != Canonical(c.mac) then Some(OpFor(Conflict, a.id, a.subnet, c, now,
      [Audit(MacConflict, a.id)]))
    else None
  }

  function PlanIp(acc: Acc, inp: Input, c: Candidate): Acc {
    var a := RowOf(inp.rows, |inp.rows|, c.ip);
    if a.None? then
      var place := PlaceOf(inp.subnets, c.ip);
      var op := OpFor(Create, acc.next, if place.Some? then place.value else 0, c, inp.now,
        [Audit(AddressCreated, acc.next)]);
      Acc(acc.next + 1, acc.ops + [op], acc.applied, acc.created + 1)
    else
      var op := RowOp(a.value, c, inp.now);
      if op.None? then acc
      else acc.(ops := acc.ops + [op.value], applied := if op.value.kind == Fill
        || op.value.kind == Update then acc.applied + 1 else acc.applied)
  }

  function PlanIps(next: Id, inp: Input, cands: seq<Candidate>, ips: seq<Addr>, n: nat): Acc
    requires n <= |ips|
  {
    if n == 0 then Acc(next, [], 0, 0)
    else
      var acc := PlanIps(next, inp, cands, ips, n - 1);
      var c := WinnerOf(cands, |cands|, ips[n - 1]);
      if c.None? then acc else PlanIp(acc, inp, c.value)
  }

  /** The candidates that reach placement. */
  function Filtered(inp: Input): seq<Candidate> {
    var cands := ReadAll(inp, ByDevice(inp.observations), |ByDevice(inp.observations)|).cands;
    Survivors(cands, Threshold(inp), |cands|)
  }

  function PlacedOf(inp: Input): seq<Candidate> {
    Inside(inp.subnets, Filtered(inp), |Filtered(inp)|)
  }

  function Plan(inp: Input, next: Id): Acc {
    var cands := PlacedOf(inp);
    PlanIps(next, inp, cands, Ips(cands, |cands|), |Ips(cands, |cands|)|)
  }

  // ---- the store

  datatype Store = Store(rows: map<Id, Row>, subnets: set<Id>, log: seq<Audit>)

  /** ARP data may write the MAC: there is none, or it came from ARP. */
  predicate ArpOwned(a: Row) {
    a.mac == NoMac || a.source == SrcArp
  }

  predicate TextTaken(rows: map<Id, Row>, t: Text) {
    exists i :: i in rows && rows[i].text == t
  }

  function CreatedRow(op: Op): Row {
    Row(op.address, op.text, op.subnet, Canonical(op.mac), SrcArp, op.device, Some(op.at), NoMac,
        map["status" := "active", "address_type" := "host", "created_by" := "arp", "origin" := "arp"])
  }

  /** The guard of an operation on the store as it is now. */
  predicate Runs(s: Store, op: Op) {
    if op.kind == Create then !TextTaken(s.rows, op.text) && op.subnet in s.subnets && op.address !in s.rows
    else
      && op.address in s.rows
      && (op.kind == Fill || op.kind == Update ==> ArpOwned(s.rows[op.address]))
      && (op.kind == Conflict ==> !ArpOwned(s.rows[op.address]))
  }

  function Written(a: Row, op: Op): Row {
    match op.kind
    case Fill => a.(mac := Canonical(op.mac), source := SrcArp, sourceDevice := op.device, seenAt := Some(op.at),
      conflict := NoMac)
    case Update => a.(mac := Canonical(op.mac), source := SrcArp, sourceDevice := op.device, seenAt := Some(op.at),
      conflict := NoMac)
    case Conflict => a.(conflict := Canonical(op.mac))
    case ClearConflict => a.(conflict := NoMac, seenAt := Some(op.at))
    case Touch => a.(seenAt := Some(op.at), sourceDevice := if a.source == SrcArp then op.device else a.sourceDevice)
    case Create => a
  }

  function ApplyOne(s: Store, op: Op): Store {
    if !Runs(s, op) then s
    else if op.kind == Create then s.(rows := s.rows[op.address := CreatedRow(op)], log := s.log + op.audit)
    else s.(rows := s.rows[op.address := Written(s.rows[op.address], op)], log := s.log + op.audit)
  }

  function ApplyAll(s: Store, ops: seq<Op>, n: nat): Store
    requires n <= |ops|
  {
    if n == 0 then s else ApplyOne(ApplyAll(s, ops, n - 1), ops[n - 1])
  }
}
