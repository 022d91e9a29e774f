/** What one ARP run leaves in every row, column by column. */
module ArpOutcome {
  import opened Wrappers
  import opened Ipnet
  import opened Arp
  import opened ArpRun
  import opened ArpReplay
  import opened ArpResults
  import Allocator
  import FreeSearch
  import Placement

  function Applied(s: Store, inp: Input, next: Id): Store {
    ApplyAll(s, Plan(inp, next).ops, |Plan(inp, next).ops|)
  }

  /** What was heard about an address. */
  function Heard(inp: Input, ip: Addr): Option<Candidate> {
    WinnerOf(PlacedOf(inp), |PlacedOf(inp)|, ip)
  }

  /** The row found for its own address. */
  predicate Speaks(inp: Input, a: Row) {
    a.text.addr.Some? && RowOf(inp.rows, |inp.rows|, FreeSearch.Canon(a.text.addr.value)) == Some(a)
  }

  /** The MAC is the observed one. */
  predicate SameMac(a: Row, m: Mac) {
    a.mac.MacText? && a.mac.parsed == Some(m)
  }

  /** A row that was heard of: learned, confirmed, replaced or marked in conflict. */
  ghost predicate Learned(a: Row, c: Candidate, now: Time, b: Row) {
    && b == a.(mac := b.mac, source := b.source, sourceDevice := b.sourceDevice, seenAt := b.seenAt,
               conflict := b.conflict)
    && (a.mac == NoMac || (!SameMac(a, c.mac) && a.source == SrcArp) ==>
          && b.mac == MacText(Some(c.mac), 0) && b.source == SrcArp && b.sourceDevice == c.device
          && b.seenAt == Some(now) && b.conflict == NoMac)
    && (SameMac(a, c.mac) ==>
          && b.mac == a.mac && b.source == a.source && b.seenAt == Some(now) && b.conflict == NoMac
          && b.sourceDevice == if a.source == SrcArp && a.conflict == NoMac then c.device else a.sourceDevice)
    && (a.mac != NoMac && !SameMac(a, c.mac) && a.source != SrcArp ==>
          && b.mac == a.mac && b.source == a.source && b.sourceDevice == a.sourceDevice && b.seenAt == a.seenAt
          && b.conflict == MacText(Some(c.mac), 0))
  }

  lemma OpLearns(a: Row, c: Candidate, now: Time)
    ensures var op := RowOp(a, c, now); Learned(a, c, now, if op.Some? then Written(a, op.value) else a)
  {}

  lemma PlannedIsOwn(ips: seq<Addr>, a: Row)
    ensures PlannedIp(ips, |ips|, a)
         == if a.text.addr.Some? && FreeSearch.Canon(a.text.addr.value) in ips
            then Some(FreeSearch.Canon(a.text.addr.value)) else None
  {
    var f := PlannedIp(ips, |ips|, a);
    assert ips[..|ips|] == ips;
  }

  lemma HeardIsPlanned(inp: Input, ip: Addr)
    ensures ip in Ips(PlacedOf(inp), |PlacedOf(inp)|) <==> Heard(inp, ip).Some?
  {
    var placed := PlacedOf(inp);
    IpsStrict(placed, |placed|);
    assert placed[..|placed|] == placed;
    var w := Heard(inp, ip);
    assert w.Some? ==> w.value in placed;
  }

  /** A stored row changes only if it is the one found for an address heard of, and then as the observation says. */
  lemma RowOutcome(s: Store, inp: Input, next: Id, i: Id)
    requires Loaded(s, inp, next) && i in s.rows
    ensures var a, t := s.rows[i], Applied(s, inp, next);
            && i in t.rows
            && (!Speaks(inp, a) || Heard(inp, FreeSearch.Canon(a.text.addr.value)).None? ==> t.rows[i] == a)
            && (Speaks(inp, a) && Heard(inp, FreeSearch.Canon(a.text.addr.value)).Some? ==>
                  Learned(a, Heard(inp, FreeSearch.Canon(a.text.addr.value)).value, inp.now, t.rows[i]))
  {
    var x, a := PassOf(s, inp, next), s.rows[i];
    var n := |x.ips|;
    PassStarts(s, inp, next);
    var tr := TraceOf(x, n);
    TrackOld(x, tr, n, n, i);
    PlannedIsOwn(x.ips, a);
    if a.text.addr.Some? {
      var ip := FreeSearch.Canon(a.text.addr.value);
      HeardIsPlanned(inp, ip);
      if Heard(inp, ip).Some? { OpLearns(a, Heard(inp, ip).value, inp.now); }
    }
  }

  /** The row of an address not stored before: in the most specific subnet, learned from ARP. */
  ghost predicate Fresh(inp: Input, i: Id, c: Candidate, b: Row) {
    && b.id == i && b.text == Allocator.Text.Text(Some(c.ip), 0) && b.mac == MacText(Some(c.mac), 0)
    && b.source == SrcArp && b.sourceDevice == c.device && b.seenAt == Some(inp.now) && b.conflict == NoMac
    && b.admin == map["status" := "active", "address_type" := "host", "created_by" := "arp", "origin" := "arp"]
    && exists p :: Placement.IsMostSpecific(inp.subnets, c.ip, Some(p)) && p.id == b.subnet
  }

  lemma CreatesFresh(s: Store, inp: Input, next: Id, ip: Addr, i: Id)
    requires Loaded(s, inp, next) && Heard(inp, ip).Some?
    ensures var x := PassOf(s, inp, next);
            Fresh(inp, i, Win(x, ip), CreatedRow(CreateOp(x, Win(x, ip), i))) && Win(x, ip).ip == ip
  {
    var x := PassOf(s, inp, next);
    PassStarts(s, inp, next);
    HeardIsPlanned(inp, ip);
    assert FreeSearch.Canon(ip) == ip;
    assert Placement.IsMostSpecific(inp.subnets, ip, Placement.MostSpecific(inp.subnets, ip));
  }

  /** Every new row is that of an address heard of that no stored row held. */
  lemma NewRowOutcome(s: Store, inp: Input, next: Id, i: Id) returns (c: Candidate)
    requires Loaded(s, inp, next) && i in Applied(s, inp, next).rows && i !in s.rows
    ensures Heard(inp, c.ip) == Some(c) && Fresh(inp, i, c, Applied(s, inp, next).rows[i])
    ensures forall j :: j in s.rows ==> !Holds(s.rows[j], c.ip)
  {
    var x := PassOf(s, inp, next);
    PassStarts(s, inp, next);
    var tr := TraceOf(x, |x.ips|);
    var m := TrackNew(x, tr, |x.ips|, |x.ips|, i);
    var ip := x.ips[m];
    assert ip in x.ips;
    HeardIsPlanned(inp, ip);
    CreatesFresh(s, inp, next, ip, i);
    c := Win(x, ip);
    forall j | j in s.rows ensures !Holds(s.rows[j], ip) { FindsStored(x, ip, j); }
  }

  /** And every address heard of has a row afterwards. */
  lemma HeardHasRow(s: Store, inp: Input, next: Id, ip: Addr) returns (i: Id)
    requires Loaded(s, inp, next) && Heard(inp, ip).Some?
    ensures i in Applied(s, inp, next).rows && Holds(Applied(s, inp, next).rows[i], ip)
  {
    var x := PassOf(s, inp, next);
    PassStarts(s, inp, next);
    var tr := TraceOf(x, |x.ips|);
    HeardIsPlanned(inp, ip);
    var m :| 0 <= m < |x.ips| && x.ips[m] == ip;
    HasRow(x, tr, |x.ips|, |x.ips|, m);
    i :| i in tr.tables[|x.ips|].rows && Holds(tr.tables[|x.ips|].rows[i], ip);
  }

  // ---- the log and the counts

  /** A write's audit rows tell what it does: an address found, a MAC learned, changed or in conflict. */
  ghost predicate Tells(inp: Input, op: Op) {
    if op.kind == Create then op.audit == [Audit(AddressCreated, op.address)]
    else exists a, c: Candidate ::
           && a in inp.rows && op.address == a.id && Holds(a, c.ip)
           && Heard(inp, c.ip) == Some(c) && op.mac == c.mac && op.audit == AuditFor(a, c.mac)
  }

  function AuditFor(a: Row, m: Mac): seq<Audit> {
    if a.mac == NoMac then [Audit(MacLearned, a.id)]
    else if SameMac(a, m) then []
    else if a.source == SrcArp then [Audit(MacChanged, a.id)]
    else [Audit(MacConflict, a.id)]
  }

  function Kinds(ops: seq<Op>, n: nat, kinds: set<Kind>): nat
    requires n <= |ops|
  {
    if n == 0 then 0 else Kinds(ops, n - 1, kinds) + if ops[n - 1].kind in kinds then 1 else 0
  }

  lemma {:induction false} KindsAdd(ops: seq<Op>, op: Op, n: nat, kinds: set<Kind>)
    requires n <= |ops|
    ensures Kinds(ops + [op], n, kinds) == Kinds(ops, n, kinds)
  {
    if n > 0 { KindsAdd(ops, op, n - 1, kinds); }
  }

  ghost predicate Told(inp: Input, acc: Acc) {
    && (forall op :: op in acc.ops ==> Tells(inp, op))
    && acc.created == Kinds(acc.ops, |acc.ops|, {Create}) && acc.applied == Kinds(acc.ops, |acc.ops|, {Fill, Update})
  }

  lemma ToldAdd(inp: Input, acc: Acc, acc': Acc, op: Op)
    requires Told(inp, acc) && Tells(inp, op) && acc'.ops == acc.ops + [op]
    requires acc'.created == acc.created + if op.kind == Create then 1 else 0
    requires acc'.applied == acc.applied + if op.kind == Fill || op.kind == Update then 1 else 0
    ensures Told(inp, acc')
  {
    KindsAdd(acc.ops, op, |acc.ops|, {Create});
    KindsAdd(acc.ops, op, |acc.ops|, {Fill, Update});
  }

  lemma RowTells(inp: Input, a: Row, c: Candidate)
    requires a in inp.rows && Holds(a, c.ip) && Heard(inp, c.ip) == Some(c) && RowOp(a, c, inp.now).Some?
    ensures Tells(inp, RowOp(a, c, inp.now).value)
  {
    var op := RowOp(a, c, inp.now).value;
    assert op.kind != Create && op.address == a.id && op.mac == c.mac && op.audit == AuditFor(a, c.mac);
  }

  lemma ToldStep(inp: Input, acc: Acc, c: Candidate)
    requires Told(inp, acc) && Heard(inp, c.ip) == Some(c)
    ensures Told(inp, PlanIp(acc, inp, c))
  {
    var acc', a := PlanIp(acc, inp, c), RowOf(inp.rows, |inp.rows|, c.ip);
    assert inp.rows[..|inp.rows|] == inp.rows;
    if a.None? {
      ToldAdd(inp, acc, acc', acc'.ops[|acc.ops|]);
    } else if RowOp(a.value, c, inp.now).Some? {
      RowTells(inp, a.value, c);
      ToldAdd(inp, acc, acc', RowOp(a.value, c, inp.now).value);
    }
  }

  lemma {:induction false} ToldTo(inp: Input, next: Id, ips: seq<Addr>, n: nat)
    requires n <= |ips|
    ensures Told(inp, PlanIps(next, inp, PlacedOf(inp), ips, n))
  {
    if n > 0 {
      ToldTo(inp, next, ips, n - 1);
      var c := Heard(inp, ips[n - 1]);
      if c.Some? { ToldStep(inp, PlanIps(next, inp, PlacedOf(inp), ips, n - 1), c.value); }
    }
  }

  /** Every planned write is told by its audit rows, and the plan's counts are those of its writes. */
  lemma PlanTold(inp: Input, next: Id)
    ensures Told(inp, Plan(inp, next))
  {
    var ips := Ips(PlacedOf(inp), |PlacedOf(inp)|);
    ToldTo(inp, next, ips, |ips|);
  }
}
