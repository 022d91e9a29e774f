/** Planning and applying the same observations twice: the second time only confirms. */
module ArpReplay {
  import opened Wrappers
  import opened Ipnet
  import opened Arp
  import opened ArpRun
  import Allocator
  import FreeSearch

  // ---- one row

  /** Planning the candidate again only confirms the row, or does nothing. */
  predicate Quiet(a: Row, c: Candidate) {
    var op := RowOp(a, c, 0);
    op.None? || op.value.kind == Touch
  }

  lemma QuietAnyTime(a: Row, c: Candidate, now: Time)
    requires Quiet(a, c)
    ensures RowOp(a, c, now).None? || RowOp(a, c, now).value.kind == Touch
  {}

  lemma WrittenQuiet(a: Row, c: Candidate, now: Time)
    ensures RowOp(a, c, now).None? ==> Quiet(a, c)
    ensures RowOp(a, c, now).Some? ==>
          Quiet(Written(a, RowOp(a, c, now).value), c) && RowOp(a, c, now).value.address == a.id
    ensures RowOp(a, c, now).Some? ==> RowOp(a, c, now).value.kind != Create
  {}

  // ---- one pass

  datatype Pass = Pass(s: Store, inp: Input, next: Id, cands: seq<Candidate>, ips: seq<Addr>)

  ghost predicate Lists(rows: seq<Row>, m: map<Id, Row>) {
    forall a :: a in rows <==> a.id in m && m[a.id] == a
  }

  /** The store lists addresses newest first. */
  predicate NewestFirst(rows: seq<Row>) {
    forall i, j :: 0 <= i < j < |rows| ==> rows[i].id > rows[j].id
  }

  ghost predicate RowIds(m: map<Id, Row>) {
    forall i :: i in m ==> m[i].id == i
  }

  /** A store and what was loaded from it. */
  ghost predicate Loaded(s: Store, inp: Input, next: Id) {
    && RowIds(s.rows) && Lists(inp.rows, s.rows) && (forall i :: i in s.rows ==> i < next)
    && (forall c :: c in inp.subnets ==> c.id in s.subnets)
  }

  ghost predicate Start(x: Pass) {
    && Loaded(x.s, x.inp, x.next) && Strict(x.ips)
    && (forall ip :: ip in x.ips ==>
      FreeSearch.Canon(ip) == ip && PlaceOf(x.inp.subnets, ip).Some? && WinnerOf(x.cands, |x.cands|, ip).Some?)
  }

  function PlanTo(x: Pass, n: nat): Acc
    requires n <= |x.ips|
  {
    PlanIps(x.next, x.inp, x.cands, x.ips, n)
  }

  function TableTo(x: Pass, n: nat): Store
    requires n <= |x.ips|
  {
    ApplyAll(x.s, PlanTo(x, n).ops, |PlanTo(x, n).ops|)
  }

  function Win(x: Pass, ip: Addr): Candidate
    requires WinnerOf(x.cands, |x.cands|, ip).Some?
  {
    WinnerOf(x.cands, |x.cands|, ip).value
  }

  lemma {:induction false} ApplyPrefix(s: Store, a: seq<Op>, b: seq<Op>, n: nat)
    requires n <= |a| && n <= |b| && a[..n] == b[..n]
    ensures ApplyAll(s, a, n) == ApplyAll(s, b, n)
  {
    if n > 0 {
      assert a[..n][n - 1] == a[n - 1] && b[..n][n - 1] == b[n - 1];
      assert a[..n - 1] == a[..n][..n - 1] && b[..n - 1] == b[..n][..n - 1];
      ApplyPrefix(s, a, b, n - 1);
    }
  }

  lemma ApplyAdd(s: Store, ops: seq<Op>, op: Op)
    ensures ApplyAll(s, ops + [op], |ops| + 1) == ApplyOne(ApplyAll(s, ops, |ops|), op)
  {
    ApplyPrefix(s, ops, ops + [op], |ops|);
  }

  /** The write planned for the n-th address when its row id would be `next`. */
  function OpAt(x: Pass, n: nat, next: Id): Option<Op>
    requires n < |x.ips| && WinnerOf(x.cands, |x.cands|, x.ips[n]).Some?
  {
    var c := Win(x, x.ips[n]);
    var a := RowOf(x.inp.rows, |x.inp.rows|, x.ips[n]);
    if a.Some? then RowOp(a.value, c, x.inp.now) else Some(CreateOp(x, c, next))
  }

  function CreateOp(x: Pass, c: Candidate, id: Id): Op {
    var place := PlaceOf(x.inp.subnets, c.ip);
    OpFor(Create, id, if place.Some? then place.value else 0, c, x.inp.now, [Audit(AddressCreated, id)])
  }

  /** The tables and next ids along the addresses. */
  datatype Trace = Trace(tables: seq<Store>, nexts: seq<Id>)

  ghost predicate Acts(x: Pass, n: nat, t: Store, t': Store, next: Id, next': Id)
    requires n < |x.ips|
  {
    WinnerOf(x.cands, |x.cands|, x.ips[n]).Some? &&
    var op := OpAt(x, n, next);
    && t' == (if op.Some? then ApplyOne(t, op.value) else t)
    && next' == (if RowOf(x.inp.rows, |x.inp.rows|, x.ips[n]).None? then next + 1 else next)
  }

  ghost predicate Follows(x: Pass, tr: Trace, n: nat) {
    && n <= |x.ips| && |tr.tables| == |tr.nexts| == n + 1 && tr.tables[0] == x.s && tr.nexts[0] == x.next
    && forall k :: 0 <= k < n ==> Acts(x, k, tr.tables[k], tr.tables[k + 1], tr.nexts[k], tr.nexts[k + 1])
  }

  lemma ActsAt(x: Pass, tr: Trace, n: nat, k: nat)
    requires Follows(x, tr, n) && 0 < k <= n
    ensures Acts(x, k - 1, tr.tables[k - 1], tr.tables[k], tr.nexts[k - 1], tr.nexts[k])
  {
    var j := k - 1;
    assert Acts(x, j, tr.tables[j], tr.tables[j + 1], tr.nexts[j], tr.nexts[j + 1]);
  }

  lemma PlanActs(x: Pass, n: nat)
    requires Start(x) && n < |x.ips|
    ensures Acts(x, n, TableTo(x, n), TableTo(x, n + 1), PlanTo(x, n).next, PlanTo(x, n + 1).next)
    ensures PlanTo(x, n + 1).ops == PlanTo(x, n).ops
          + (var op := OpAt(x, n, PlanTo(x, n).next); if op.Some? then [op.value] else [])
  {
    assert x.ips[n] in x.ips;
    var op := OpAt(x, n, PlanTo(x, n).next);
    if op.Some? { ApplyAdd(x.s, PlanTo(x, n).ops, op.value); }
  }

  lemma FollowsMore(x: Pass, tr: Trace, n: nat, t: Store, next: Id)
    requires Follows(x, tr, n) && n < |x.ips| && Acts(x, n, tr.tables[n], t, tr.nexts[n], next)
    ensures Follows(x, Trace(tr.tables + [t], tr.nexts + [next]), n + 1)
  {
    var tr' := Trace(tr.tables + [t], tr.nexts + [next]);
    forall k | 0 <= k < n + 1 ensures Acts(x, k, tr'.tables[k], tr'.tables[k + 1], tr'.nexts[k], tr'.nexts[k + 1]) {
      if k < n { ActsAt(x, tr, n, k + 1); }
    }
  }

  ghost predicate Traces(x: Pass, tr: Trace, n: nat) {
    && n <= |x.ips| && |tr.tables| == |tr.nexts| == n + 1
    && forall k :: 0 <= k <= n ==> tr.tables[k] == TableTo(x, k) && tr.nexts[k] == PlanTo(x, k).next
  }

  lemma TracesMore(x: Pass, tr: Trace, n: nat)
    requires Traces(x, tr, n) && n < |x.ips|
    ensures Traces(x, Trace(tr.tables + [TableTo(x, n + 1)], tr.nexts + [PlanTo(x, n + 1).next]), n + 1)
  {
    var tr' := Trace(tr.tables + [TableTo(x, n + 1)], tr.nexts + [PlanTo(x, n + 1).next]);
    forall k | 0 <= k <= n + 1 ensures tr'.tables[k] == TableTo(x, k) && tr'.nexts[k] == PlanTo(x, k).next {
      if k <= n { assert tr.tables[k] == TableTo(x, k); }
    }
  }

  lemma TraceOf(x: Pass, n: nat) returns (tr: Trace)
    requires Start(x) && n <= |x.ips|
    ensures Follows(x, tr, n) && Traces(x, tr, n)
  {
    tr := Trace([x.s], [x.next]);
    for k := 0 to n
      invariant Follows(x, tr, k) && Traces(x, tr, k)
    {
      PlanActs(x, k);
      FollowsMore(x, tr, k, TableTo(x, k + 1), PlanTo(x, k + 1).next);
      TracesMore(x, tr, k);
      tr := Trace(tr.tables + [TableTo(x, k + 1)], tr.nexts + [PlanTo(x, k + 1).next]);
    }
  }

  lemma {:induction false} NextGrows(x: Pass, tr: Trace, n: nat, k: nat)
    requires Follows(x, tr, n) && k <= n
    ensures x.next <= tr.nexts[k]
  {
    if k > 0 {
      NextGrows(x, tr, n, k - 1);
      ActsAt(x, tr, n, k);
    }
  }

  // ---- what each row becomes

  /** The address of the row among the first `n` planned. */
  function PlannedIp(ips: seq<Addr>, n: nat, a: Row): (f: Option<Addr>)
    requires n <= |ips|
    ensures f.Some? ==> f.value in ips[..n] && Holds(a, f.value)
    ensures f.None? ==> forall ip :: ip in ips[..n] ==> !Holds(a, ip)
  {
    if n == 0 then None
    else
      assert ips[..n] == ips[..n - 1] + [ips[n - 1]];
      if Holds(a, ips[n - 1]) then Some(ips[n - 1]) else PlannedIp(ips, n - 1, a)
  }

  function Became(x: Pass, a: Row, n: nat): Row
    requires n <= |x.ips|
  {
    var ip := PlannedIp(x.ips, n, a);
    if ip.None? || WinnerOf(x.cands, |x.cands|, ip.value).None?
      || RowOf(x.inp.rows, |x.inp.rows|, ip.value) != Some(a) then a
    else
      var op := RowOp(a, Win(x, ip.value), x.inp.now);
      if op.Some? then Written(a, op.value) else a
  }

  lemma NotPlannedYet(x: Pass, k: nat, a: Row)
    requires Strict(x.ips) && 0 < k <= |x.ips| && Holds(a, x.ips[k - 1])
    ensures PlannedIp(x.ips, k - 1, a).None?
  {
    var f := PlannedIp(x.ips, k - 1, a);
    assert forall j :: 0 <= j < k - 1 ==> Before(x.ips[j], x.ips[k - 1]);
  }

  /** The row found for an address is a stored one holding it, and one is found whenever one holds it. */
  lemma FindsStored(x: Pass, ip: Addr, i: Id)
    requires Start(x) && i in x.s.rows
    ensures var a := RowOf(x.inp.rows, |x.inp.rows|, ip);
            && (a.Some? ==> a.value.id in x.s.rows && x.s.rows[a.value.id] == a.value)
            && (Holds(x.s.rows[i], ip) ==> a.Some?)
  {
    assert x.inp.rows[..|x.inp.rows|] == x.inp.rows;
    if Holds(x.s.rows[i], ip) { assert x.s.rows[i] in x.inp.rows; }
  }

  lemma OpRuns(t: Store, a: Row, c: Candidate, now: Time)
    requires a.id in t.rows && t.rows[a.id] == a && RowOp(a, c, now).Some?
    ensures var op := RowOp(a, c, now).value;
            Runs(t, op) && ApplyOne(t, op).rows == t.rows[a.id := Written(a, op)]
  {}

  lemma {:induction false} TrackOld(x: Pass, tr: Trace, n: nat, k: nat, i: Id)
    requires Start(x) && Follows(x, tr, n) && k <= n && i in x.s.rows
    ensures i in tr.tables[k].rows && tr.tables[k].rows[i] == Became(x, x.s.rows[i], k)
  {
    if k > 0 {
      TrackOld(x, tr, n, k - 1, i);
      ActsAt(x, tr, n, k);
      NextGrows(x, tr, n, k - 1);
      OldStep(x, tr.tables[k - 1], tr.tables[k], tr.nexts[k - 1], k, i);
    }
  }

  lemma OldStep(x: Pass, t: Store, t': Store, next: Id, k: nat, i: Id)
    requires Start(x) && 0 < k <= |x.ips| && i in x.s.rows && x.next <= next
          && WinnerOf(x.cands, |x.cands|, x.ips[k - 1]).Some?
    requires var op := OpAt(x, k - 1, next); t' == (if op.Some? then ApplyOne(t, op.value) else t)
    requires i in t.rows && t.rows[i] == Became(x, x.s.rows[i], k - 1)
    ensures i in t'.rows && t'.rows[i] == Became(x, x.s.rows[i], k)
  {
    var ip := x.ips[k - 1];
    var a := RowOf(x.inp.rows, |x.inp.rows|, ip);
    FindsStored(x, ip, i);
    if Holds(x.s.rows[i], ip) { NotPlannedYet(x, k, x.s.rows[i]); }
    if a == Some(x.s.rows[i]) {
      if OpAt(x, k - 1, next).Some? { OpRuns(t, a.value, Win(x, ip), x.inp.now); }
    } else if a.Some? {
      WrittenQuiet(a.value, Win(x, ip), x.inp.now);
      assert a.value.id != i;
    }
  }

  /** A created row was created for one of the addresses. */
  lemma {:induction false} TrackNew(x: Pass, tr: Trace, n: nat, k: nat, i: Id) returns (m: nat)
    requires Start(x) && Follows(x, tr, n) && k <= n && i in tr.tables[k].rows && i !in x.s.rows
    ensures m < k && WinnerOf(x.cands, |x.cands|, x.ips[m]).Some? && i < tr.nexts[k]
    ensures tr.tables[k].rows[i] == CreatedRow(CreateOp(x, Win(x, x.ips[m]), i))
    ensures RowOf(x.inp.rows, |x.inp.rows|, x.ips[m]).None?
  {
    assert k > 0;
    ActsAt(x, tr, n, k);
    var t, ip := tr.tables[k - 1], x.ips[k - 1];
    var a := RowOf(x.inp.rows, |x.inp.rows|, ip);
    if a.Some? {
      assert x.inp.rows[..|x.inp.rows|] == x.inp.rows;
      WrittenQuiet(a.value, Win(x, ip), x.inp.now);
      m := TrackNew(x, tr, n, k - 1, i);
    } else if i in t.rows {
      m := TrackNew(x, tr, n, k - 1, i);
      assert i != tr.nexts[k - 1];
    } else {
      m := k - 1;
    }
  }

  lemma WinHasIp(x: Pass, ip: Addr)
    requires WinnerOf(x.cands, |x.cands|, ip).Some?
    ensures Win(x, ip).ip == ip
  {}

  lemma BecameKeepsText(x: Pass, a: Row, n: nat)
    requires n <= |x.ips|
    ensures Became(x, a, n).text == a.text && Became(x, a, n).id == a.id
  {}

  lemma PrintHolds(a: Row, ip: Addr)
    requires FreeSearch.Canon(ip) == ip
    ensures a.text == Allocator.Print(ip) ==> Holds(a, ip)
  {}

  /** A row that holds an address not planned before cannot have its text already. */
  lemma TextFree(x: Pass, tr: Trace, n: nat, k: nat, i: Id)
    requires Start(x) && Follows(x, tr, n) && 0 < k <= n && i in tr.tables[k - 1].rows
    requires RowOf(x.inp.rows, |x.inp.rows|, x.ips[k - 1]).None?
    ensures tr.tables[k - 1].rows[i].text != Allocator.Print(x.ips[k - 1])
  {
    var ip := x.ips[k - 1];
    assert ip in x.ips;
    if i in x.s.rows {
      TrackOld(x, tr, n, k - 1, i);
      BecameKeepsText(x, x.s.rows[i], k - 1);
      PrintHolds(x.s.rows[i], ip);
      FindsStored(x, ip, i);
    } else {
      var m := TrackNew(x, tr, n, k - 1, i);
      WinHasIp(x, x.ips[m]);
      assert Before(x.ips[m], ip) && x.ips[m] in x.ips;
    }
  }

  lemma IdFree(x: Pass, tr: Trace, n: nat, k: nat)
    requires Start(x) && Follows(x, tr, n) && k <= n
    ensures tr.nexts[k] !in tr.tables[k].rows
  {
    NextGrows(x, tr, n, k);
    if tr.nexts[k] in tr.tables[k].rows && tr.nexts[k] !in x.s.rows {
      var m := TrackNew(x, tr, n, k, tr.nexts[k]);
    }
  }

  lemma {:induction false} SubnetsKept(x: Pass, tr: Trace, n: nat, k: nat)
    requires Follows(x, tr, n) && k <= n
    ensures tr.tables[k].subnets == x.s.subnets
  {
    if k > 0 {
      SubnetsKept(x, tr, n, k - 1);
      ActsAt(x, tr, n, k);
    }
  }

  lemma PlaceKnown(x: Pass, ip: Addr)
    requires Start(x) && ip in x.ips
    ensures PlaceOf(x.inp.subnets, ip).Some? && PlaceOf(x.inp.subnets, ip).value in x.s.subnets
  {}

  /** Without interference every planned write passes its guard. */
  lemma StepRuns(x: Pass, tr: Trace, n: nat, k: nat)
    requires Start(x) && Follows(x, tr, n) && 0 < k <= n
    ensures WinnerOf(x.cands, |x.cands|, x.ips[k - 1]).Some?
    ensures var op := OpAt(x, k - 1, tr.nexts[k - 1]); op.Some? ==> Runs(tr.tables[k - 1], op.value)
  {
    ActsAt(x, tr, n, k);
    var ip, t := x.ips[k - 1], tr.tables[k - 1];
    assert ip in x.ips;
    var a := RowOf(x.inp.rows, |x.inp.rows|, ip);
    if a.Some? {
      assert x.inp.rows[..|x.inp.rows|] == x.inp.rows;
      TrackOld(x, tr, n, k - 1, a.value.id);
      NotPlannedYet(x, k, a.value);
      if RowOp(a.value, Win(x, ip), x.inp.now).Some? { OpRuns(t, a.value, Win(x, ip), x.inp.now); }
    } else {
      WinHasIp(x, ip);
      IdFree(x, tr, n, k - 1);
      PlaceKnown(x, ip);
      SubnetsKept(x, tr, n, k - 1);
      forall i | i in t.rows ensures t.rows[i].text != Allocator.Print(ip) { TextFree(x, tr, n, k, i); }
    }
  }

  lemma {:induction false} NoneSkipped(x: Pass, n: nat)
    requires Start(x) && n <= |x.ips|
    ensures var ops := PlanTo(x, n).ops; forall k :: 0 <= k < |ops| ==> Runs(ApplyAll(x.s, ops, k), ops[k])
  {
    if n > 0 {
      NoneSkipped(x, n - 1);
      PlanActs(x, n - 1);
      var tr := TraceOf(x, n);
      StepRuns(x, tr, n, n);
      var op := OpAt(x, n - 1, PlanTo(x, n - 1).next);
      if op.Some? { RunsMore(x.s, PlanTo(x, n - 1).ops, op.value); }
    }
  }

  lemma RunsMore(s: Store, ops: seq<Op>, op: Op)
    requires forall k :: 0 <= k < |ops| ==> Runs(ApplyAll(s, ops, k), ops[k])
    requires Runs(ApplyAll(s, ops, |ops|), op)
    ensures var more := ops + [op]; forall k :: 0 <= k < |more| ==> Runs(ApplyAll(s, more, k), more[k])
  {
    var more := ops + [op];
    forall k | 0 <= k < |more| ensures Runs(ApplyAll(s, more, k), more[k]) {
      assert ops[..k] == more[..k];
      ApplyPrefix(s, ops, more, k);
    }
  }

  // ---- the second plan

  /** The row found for an address is the oldest one holding it. */
  lemma {:induction false} FindsOldest(rows: seq<Row>, n: nat, ip: Addr, a: Row)
    requires NewestFirst(rows) && n <= |rows| && a in rows[..n] && Holds(a, ip)
    ensures RowOf(rows, n, ip).Some? && RowOf(rows, n, ip).value.id <= a.id
  {
    assert rows[..n] == rows[..n - 1] + [rows[n - 1]];
    if !Holds(rows[n - 1], ip) {
      FindsOldest(rows, n - 1, ip, a);
    } else if a != rows[n - 1] {
      var k :| 0 <= k < n - 1 && rows[k] == a;
    }
  }

  /** The oldest row of a planned address is quiet. */
  lemma RowQuiet(x: Pass, tr: Trace, i: Id, ip: Addr)
    requires Start(x) && Follows(x, tr, |x.ips|) && ip in x.ips && i in tr.tables[|x.ips|].rows
          && Holds(tr.tables[|x.ips|].rows[i], ip)
    requires i in x.s.rows ==> RowOf(x.inp.rows, |x.inp.rows|, ip) == Some(x.s.rows[i])
    ensures WinnerOf(x.cands, |x.cands|, ip).Some? && Quiet(tr.tables[|x.ips|].rows[i], Win(x, ip))
  {
    var n := |x.ips|;
    assert x.ips[..n] == x.ips;
    if i in x.s.rows {
      TrackOld(x, tr, n, n, i);
      BecameKeepsText(x, x.s.rows[i], n);
      assert PlannedIp(x.ips, n, x.s.rows[i]) == Some(ip);
      WrittenQuiet(x.s.rows[i], Win(x, ip), x.inp.now);
    } else {
      var m := TrackNew(x, tr, n, n, i);
      WinHasIp(x, x.ips[m]);
      assert x.ips[m] in x.ips && x.ips[m] == ip;
    }
  }

  /** Every planned address has a row afterwards. */
  lemma {:induction false} HasRow(x: Pass, tr: Trace, n: nat, k: nat, m: nat)
    requires Start(x) && Follows(x, tr, n) && m < k <= n
    ensures exists i :: i in tr.tables[k].rows && Holds(tr.tables[k].rows[i], x.ips[m])
  {
    ActsAt(x, tr, n, k);
    var ip := x.ips[m];
    assert ip in x.ips;
    var a := RowOf(x.inp.rows, |x.inp.rows|, ip);
    if a.Some? {
      assert x.inp.rows[..|x.inp.rows|] == x.inp.rows;
      TrackOld(x, tr, n, k, a.value.id);
      BecameKeepsText(x, a.value, k);
      assert Holds(tr.tables[k].rows[a.value.id], ip);
    } else if m < k - 1 {
      HasRow(x, tr, n, k - 1, m);
      var i :| i in tr.tables[k - 1].rows && Holds(tr.tables[k - 1].rows[i], ip);
      KeepsRow(x, tr, n, k, i);
      assert Holds(tr.tables[k].rows[i], ip);
    } else {
      StepRuns(x, tr, n, k);
      WinHasIp(x, ip);
      assert Holds(tr.tables[k].rows[tr.nexts[k - 1]], ip);
    }
  }

  lemma KeepsRow(x: Pass, tr: Trace, n: nat, k: nat, i: Id)
    requires Start(x) && Follows(x, tr, n) && 0 < k <= n && i in tr.tables[k - 1].rows
    ensures i in tr.tables[k].rows && tr.tables[k].rows[i].text == tr.tables[k - 1].rows[i].text
  {
    ActsAt(x, tr, n, k);
    IdFree(x, tr, n, k - 1);
  }

  /** The rows answer this address with a quiet row. */
  ghost predicate Answered(rows: seq<Row>, cands: seq<Candidate>, ip: Addr) {
    var c, b := WinnerOf(cands, |cands|, ip), RowOf(rows, |rows|, ip);
    c.Some? && c.value.ip == ip && b.Some? && Quiet(b.value, c.value)
  }

  predicate TouchesOnly(acc: Acc, next: Id) {
    acc.applied == 0 && acc.created == 0 && acc.next == next && forall op :: op in acc.ops ==> op.kind == Touch
  }

  lemma TouchStep(acc: Acc, next: Id, inp: Input, cands: seq<Candidate>, ip: Addr)
    requires TouchesOnly(acc, next) && Answered(inp.rows, cands, ip)
    ensures TouchesOnly(PlanIp(acc, inp, WinnerOf(cands, |cands|, ip).value), next)
  {
    var c := WinnerOf(cands, |cands|, ip).value;
    QuietAnyTime(RowOf(inp.rows, |inp.rows|, ip).value, c, inp.now);
    var acc' := PlanIp(acc, inp, c);
    assert forall op :: op in acc'.ops && op !in acc.ops ==> op.kind == Touch;
  }

  lemma {:induction false} QuietPlan(inp: Input, next: Id, cands: seq<Candidate>, ips: seq<Addr>, n: nat)
    requires n <= |ips| && forall k :: 0 <= k < n ==> Answered(inp.rows, cands, ips[k])
    ensures TouchesOnly(PlanIps(next, inp, cands, ips, n), next)
  {
    if n > 0 {
      QuietPlan(inp, next, cands, ips, n - 1);
      TouchStep(PlanIps(next, inp, cands, ips, n - 1), next, inp, cands, ips[n - 1]);
    }
  }

  lemma OnlyTouches(x: Pass, tr: Trace, inp2: Input, next2: Id)
    requires Start(x) && Follows(x, tr, |x.ips|) && Lists(inp2.rows, tr.tables[|x.ips|].rows)
    requires NewestFirst(x.inp.rows) && NewestFirst(inp2.rows)
    ensures TouchesOnly(PlanIps(next2, inp2, x.cands, x.ips, |x.ips|), next2)
  {
    forall k | 0 <= k < |x.ips| ensures Answered(inp2.rows, x.cands, x.ips[k]) {
      FindsQuiet(x, tr, inp2.rows, k);
    }
    QuietPlan(inp2, next2, x.cands, x.ips, |x.ips|);
  }

  /** The second pass finds a quiet row for each planned address. */
  lemma FindsQuiet(x: Pass, tr: Trace, rows: seq<Row>, n: nat)
    requires Start(x) && Follows(x, tr, |x.ips|) && n < |x.ips| && Lists(rows, tr.tables[|x.ips|].rows)
    requires NewestFirst(x.inp.rows) && NewestFirst(rows)
    ensures Answered(rows, x.cands, x.ips[n])
  {
    var ip, t := x.ips[n], tr.tables[|x.ips|].rows;
    assert ip in x.ips && rows[..|rows|] == rows;
    WinHasIp(x, ip);
    HasRow(x, tr, |x.ips|, |x.ips|, n);
    RowIdsKept(x, tr);
    var i :| i in t && Holds(t[i], ip);
    assert t[i] in rows;
    var b := RowOf(rows, |rows|, ip).value;
    if b.id in x.s.rows { SameFound(x, tr, rows, ip, b); }
    RowQuiet(x, tr, b.id, ip);
  }

  lemma OldText(x: Pass, tr: Trace, i: Id)
    requires Start(x) && Follows(x, tr, |x.ips|) && i in x.s.rows
    ensures TextKept(x.s.rows, tr.tables[|x.ips|].rows, i)
  {
    TrackOld(x, tr, |x.ips|, |x.ips|, i);
    BecameKeepsText(x, x.s.rows[i], |x.ips|);
  }

  /** The second pass finds the row the first one found. */
  lemma SameFound(x: Pass, tr: Trace, rows: seq<Row>, ip: Addr, b: Row)
    requires Start(x) && Follows(x, tr, |x.ips|) && Lists(rows, tr.tables[|x.ips|].rows)
    requires NewestFirst(x.inp.rows) && NewestFirst(rows)
    requires RowOf(rows, |rows|, ip) == Some(b) && b.id in x.s.rows
    ensures RowOf(x.inp.rows, |x.inp.rows|, ip) == Some(x.s.rows[b.id])
  {
    forall i | i in x.s.rows ensures TextKept(x.s.rows, tr.tables[|x.ips|].rows, i) { OldText(x, tr, i); }
    SameOldest(x.inp.rows, x.s.rows, rows, tr.tables[|x.ips|].rows, ip, b);
  }

  ghost predicate TextKept(m: map<Id, Row>, t: map<Id, Row>, i: Id) {
    i in m && i in t && t[i].text == m[i].text && t[i].id == i
  }

  /** When rows keep their texts, an old row that is the oldest afterwards was the oldest before. */
  lemma SameOldest(first: seq<Row>, m: map<Id, Row>, rows: seq<Row>, t: map<Id, Row>, ip: Addr, b: Row)
    requires Lists(first, m) && RowIds(m) && Lists(rows, t) && NewestFirst(first) && NewestFirst(rows)
    requires (forall i :: i in m ==> TextKept(m, t, i)) && RowOf(rows, |rows|, ip) == Some(b) && b.id in m
    ensures RowOf(first, |first|, ip) == Some(m[b.id])
  {
    assert rows[..|rows|] == rows && first[..|first|] == first;
    assert TextKept(m, t, b.id) && m[b.id] in first;
    FindsOldest(first, |first|, ip, m[b.id]);
    var a := RowOf(first, |first|, ip).value;
    assert TextKept(m, t, a.id) && t[a.id] in rows;
    FindsOldest(rows, |rows|, ip, t[a.id]);
  }

  lemma RowIdsKept(x: Pass, tr: Trace)
    requires Start(x) && Follows(x, tr, |x.ips|)
    ensures RowIds(tr.tables[|x.ips|].rows)
  {
    var n := |x.ips|;
    forall i | i in tr.tables[n].rows ensures tr.tables[n].rows[i].id == i {
      if i in x.s.rows {
        TrackOld(x, tr, n, n, i);
        BecameKeepsText(x, x.s.rows[i], n);
      } else {
        var m := TrackNew(x, tr, n, n, i);
      }
    }
  }
}
