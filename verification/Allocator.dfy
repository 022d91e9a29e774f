/**
 Allocation of free addresses against a store that other callers change at the same time
 (internal/addresses, internal/memstore address rows). Other callers' operations run between
 the steps of an allocation; which ones, and when, is an arbitrary schedule.
 */
module Allocator {
  import opened Wrappers
  import opened Ipnet
  import opened FreeSearch

  type Id = nat

  /** An address text: what it parses to (None when it does not) and how it is spelled. */
  datatype Text = Text(addr: Option<Addr>, spelling: nat)

  /** net.IP.String of an address: its canonical spelling. */
  function Print(a: Addr): Text {
    Text(Some(Canon(a)), 0)
  }

  datatype Row = Row(address: Text, subnet: Id, hostname: string)

  datatype Error = ErrNoAvailable | ErrConflict | ErrNotFound

  /** What the store did, oldest first. */
  datatype Event = Created(id: Id, text: Text) | Retexted(id: Id, text: Text) | Deleted(id: Id)

  /** The rows that are live after a history, by id. */
  ghost function Live(log: seq<Event>): map<Id, Text>
  {
    if log == [] then map[]
    else
      var before := Live(log[..|log| - 1]);
      match log[|log| - 1]
      case Created(id, t) => before[id := t]
      case Retexted(id, t) => before[id := t]
      case Deleted(id) => before - {id}
  }

  ghost predicate Holds(live: map<Id, Text>, t: Text) {
    exists i :: i in live && live[i] == t
  }

  /** Every insert found its text free, every re-spelling found it free or its own. */
  ghost predicate Guarded(log: seq<Event>) {
    forall k :: 0 <= k < |log| ==>
      match log[k]
      case Created(id, t) => !Holds(Live(log[..k]), t)
      case Retexted(id, t) => id in Live(log[..k]) && (Live(log[..k])[id] == t || !Holds(Live(log[..k]), t))
      case Deleted(_) => true
  }

  /** No two live rows share an address text, after any guarded history. */
  lemma {:induction false} LiveTextsUnique(log: seq<Event>, i: Id, j: Id)
    requires Guarded(log)
    requires i in Live(log) && j in Live(log) && Live(log)[i] == Live(log)[j]
    ensures i == j
    decreases |log|
  {
    if log != [] {
      var k := |log| - 1;
      var prev := log[..k];
      assert Guarded(prev) by {
        forall m | 0 <= m < |prev| ensures prev[..m] == log[..m] {}
      }
      if i != j && i in Live(prev) && j in Live(prev) && Live(prev)[i] == Live(prev)[j] {
        LiveTextsUnique(prev, i, j);
      }
    }
  }

  /** Two allocations of one text are separated by a release of the first. */
  lemma {:induction false} ReleasedBetween(log: seq<Event>, k1: nat, k2: nat)
    requires Guarded(log) && k1 < k2 < |log|
    requires log[k1].Created? && log[k2].Created? && log[k1].text == log[k2].text
    ensures exists k :: k1 < k < k2 && log[k].id == log[k1].id
  {
    if forall k :: k1 < k < k2 ==> log[k].id != log[k1].id {
      StaysLive(log, k1, k2);
      assert Holds(Live(log[..k2]), log[k1].text);
    }
  }

  lemma {:induction false} StaysLive(log: seq<Event>, k1: nat, k2: nat)
    requires k1 < k2 <= |log| && log[k1].Created?
    requires forall k :: k1 < k < k2 ==> log[k].id != log[k1].id
    ensures log[k1].id in Live(log[..k2]) && Live(log[..k2])[log[k1].id] == log[k1].text
    decreases k2
  {
    assert log[..k2][..k2 - 1] == log[..k2 - 1];
    if k1 + 1 < k2 {
      StaysLive(log, k1, k2 - 1);
    }
  }

  /** An operation of another caller. */
  datatype Step = Create(id: Id, row: Row) | Update(id: Id, row: Row) | Delete(id: Id)

  /** The rows are the live texts of the log. */
  ghost predicate Mirrors(rows: map<Id, Row>, nextId: Id, log: seq<Event>) {
    && Live(log).Keys == rows.Keys
    && (forall i :: i in rows ==> rows[i].address == Live(log)[i])
    && (forall i :: i in rows ==> i < nextId)
  }

  lemma CreateMirrors(rows: map<Id, Row>, nextId: Id, log: seq<Event>, i: Id, row: Row)
    requires Mirrors(rows, nextId, log)
    ensures Mirrors(rows[i := row], if i >= nextId then i + 1 else nextId, log + [Created(i, row.address)])
  {}

  /** Positions of inserts, oldest first. */
  ghost predicate Owns(log: seq<Event>, own: seq<nat>) {
    && (forall k :: 0 <= k < |own| ==> own[k] < |log| && log[own[k]].Created?)
    && (forall j, k :: 0 <= j < k < |own| ==> own[j] < own[k])
  }

  lemma OwnsMore(log: seq<Event>, later: seq<Event>, own: seq<nat>, at: nat)
    requires Owns(log, own) && log <= later && |log| <= at < |later| && later[at].Created?
    ensures Owns(later, own + [at])
  {}

  /** An allocator that inserted one text twice had the first row released or re-spelled in between. */
  lemma OwnReleased(log: seq<Event>, own: seq<nat>, j: nat, k: nat)
    requires Guarded(log) && Owns(log, own) && j < k < |own| && log[own[j]].text == log[own[k]].text
    ensures exists e :: own[j] < e < own[k] && log[e].id == log[own[j]].id
  {
    ReleasedBetween(log, own[j], own[k]);
  }

  /** The tenant's address rows. */
  class AddressStore {
    var rows: map<Id, Row>
    var nextId: Id
    var clock: nat
    ghost var log: seq<Event>
    /** Where the log records this allocator's own inserts. */
    ghost var own: seq<nat>

    ghost predicate Valid()
      reads this
    {
      Guarded(log) && Mirrors(rows, nextId, log) && Owns(log, own)
    }

    constructor ()
      ensures Valid() && rows == map[] && log == [] && own == []
    {
      rows, nextId, clock, log, own := map[], 1, 0, [], [];
    }

    predicate Has(t: Text)
      reads this
    {
      exists i :: i in rows && rows[i].address == t
    }

    /** addresses.allocatedSet: the subnet's row texts plus the caller's extras. */
    function AllocatedSet(subnet: Id, extra: set<Text>): set<Text>
      reads this
    {
      (set i | i in rows && rows[i].subnet == subnet :: rows[i].address) + extra
    }

    ghost method Record(e: Event)
      requires Guarded(log)
      requires match e
               case Created(id, t) => !Holds(Live(log), t)
               case Retexted(id, t) => id in Live(log) && (Live(log)[id] == t || !Holds(Live(log), t))
               case Deleted(_) => true
      modifies this`log
      ensures Guarded(log) && log == old(log) + [e] && log[..|old(log)|] == old(log)
      ensures Owns(old(log), own) ==> Owns(log, own)
    {
      var before := log;
      log := log + [e];
      forall k | 0 <= k < |log| ensures log[..k] == before[..k] {}
      assert before[..|before|] == before;
    }

    lemma HasIsHolds(t: Text)
      requires Valid()
      ensures Has(t) <==> Holds(Live(log), t)
    {
      if Has(t) {
        var i :| i in rows && rows[i].address == t;
        assert i in Live(log) && Live(log)[i] == t;
      }
      if Holds(Live(log), t) {
        var i :| i in Live(log) && Live(log)[i] == t;
        assert i in rows;
      }
    }

    /** memstore.CreateAddress: refused when the tenant has a row with the same text. */
    method CreateAddress(id: Option<Id>, row: Row) returns (ok: bool)
      requires Valid()
      modifies this`rows, this`nextId, this`log
      ensures Valid()
      ensures ok <==> !old(Has(row.address))
      ensures !ok ==> rows == old(rows) && log == old(log)
      ensures ok ==> exists i ::
            (id.Some? ==> i == id.value) && rows == old(rows)[i := row] && log == old(log) + [Created(i, row.address)]
    {
      HasIsHolds(row.address);
      if Has(row.address) {
        return false;
      }
      var i := if id.Some? then id.value else nextId;
      CreateMirrors(rows, nextId, log, i, row);
      rows := rows[i := row];
      nextId := if i >= nextId then i + 1 else nextId;
      Record(Created(i, row.address));
      return true;
    }

    /** memstore.UpdateAddress: a changed text must be free. */
    method UpdateAddress(id: Id, row: Row) returns (ok: bool)
      requires Valid()
      modifies this`rows, this`log
      ensures Valid()
      ensures ok <==> id in old(rows) && (row.address == old(rows)[id].address || !old(Has(row.address)))
      ensures rows == if ok then old(rows)[id := row] else old(rows)
      ensures log == if ok then old(log) + [Retexted(id, row.address)] else old(log)
    {
      HasIsHolds(row.address);
      if id !in rows || (row.address != rows[id].address && Has(row.address)) {
        return false;
      }
      rows := rows[id := row];
      Record(Retexted(id, row.address));
      return true;
    }

    /** memstore.DeleteAddress. */
    method DeleteAddress(id: Id) returns (ok: bool)
      requires Valid()
      modifies this`rows, this`log
      ensures Valid()
      ensures ok <==> id in old(rows)
      ensures rows == old(rows) - {id}
      ensures log == if ok then old(log) + [Deleted(id)] else old(log)
    {
      if id !in rows {
        return false;
      }
      rows := rows - {id};
      Record(Deleted(id));
      return true;
    }

    /** The other callers' next batch of operations. */
    method Interfere(schedule: nat -> seq<Step>)
      requires Valid()
      modifies this`rows, this`nextId, this`log, this`clock
      ensures Valid() && old(log) <= log
    {
      var batch := schedule(clock);
      clock := clock + 1;
      var k := 0;
      while k < |batch|
        invariant 0 <= k <= |batch|
        invariant Valid() && old(log) <= log
      {
        var _ := Perform(batch[k]);
        k := k + 1;
      }
    }

    method Perform(s: Step) returns (ok: bool)
      requires Valid()
      modifies this`rows, this`nextId, this`log
      ensures Valid() && old(log) <= log
    {
      match s
      case Create(id, row) => ok := CreateAddress(Some(id), row);
      case Update(id, row) => ok := UpdateAddress(id, row);
      case Delete(id) => ok := DeleteAddress(id);
    }
  }

  /** The subnet an allocation draws from and the service's carve-outs. */
  datatype Pool = Pool(id: Id, block: Block, gateway: Option<Addr>, skipFirst: int, skipLast: int)

  function Lo(p: Pool): nat { BoundedLo(p.block, p.skipFirst) }

  function Hi(p: Pool): int { BoundedHi(p.block, p.skipLast) }

  function Parsed(ts: set<Text>): set<Addr> {
    set t | t in ts && t.addr.Some? :: t.addr.value
  }

  function Taken(p: Pool, exclude: set<Text>): set<Addr> {
    Blocked(Parsed(exclude), p.gateway)
  }

  /** To16: IPv4 compares inside the IPv4-mapped range. */
  function As16(a: Addr): nat {
    if a.family == V4 then MAPPED_PREFIX * TWO_32 + a.value else a.value
  }

  /** addresses.ipLess: false when either text does not parse. */
  predicate Below(a: Addr, startFrom: Option<Text>) {
    && startFrom.Some? && startFrom.value.addr.Some?
    && As16(Canon(a)) < As16(startFrom.value.addr.value)
  }

  const MAX_ALLOC_TRIES := 20

  lemma TakenAdd(p: Pool, exclude: set<Text>, v: nat)
    ensures var a := Addr(p.block.family, v);
            Taken(p, exclude + {Print(a)}) == Taken(p, exclude) + {Canon(a)}
    ensures !Free(p.block.family, v, Taken(p, exclude + {Print(Addr(p.block.family, v))}))
    ensures forall w: nat :: !Free(p.block.family, w, Taken(p, exclude)) ==>
                             !Free(p.block.family, w, Taken(p, exclude + {Print(Addr(p.block.family, v))}))
  {
    var a := Addr(p.block.family, v);
    CanonCanon(a);
    assert Parsed(exclude + {Print(a)}) == Parsed(exclude) + {Canon(a)};
    BlockedAdd(Parsed(exclude), p.gateway, Canon(a));
  }

  lemma CanonCanon(a: Addr)
    ensures Canon(Canon(a)) == Canon(a)
  {}

  /** Values of the pool every search has to pass over. */
  ghost predicate Exhausted(p: Pool, exclude: set<Text>, upTo: int) {
    forall v: nat :: Lo(p) <= v <= upTo ==> !Free(p.block.family, v, Taken(p, exclude))
  }

  ghost predicate CreatedIn(log: seq<Event>, from: nat, t: Text) {
    exists k, i :: from <= k < |log| && log[k] == Created(i, t)
  }

  lemma CreatedEarlier(log: seq<Event>, from: nat, later: nat, t: Text)
    requires from <= later && CreatedIn(log, later, t)
    ensures CreatedIn(log, from, t)
  {
    var k, i :| later <= k < |log| && log[k] == Created(i, t);
  }

  /** One value handed out: free in the caller's eyes, in the pool, inserted since `from`. */
  ghost predicate Handed(p: Pool, exclude: set<Text>, log: seq<Event>, from: nat, v: nat) {
    && Lo(p) <= v <= Hi(p) && Free(p.block.family, v, Taken(p, exclude))
    && CreatedIn(log, from, Print(Addr(p.block.family, v)))
  }

  ghost predicate InsertOf(p: Pool, log: seq<Event>, at: nat, v: nat) {
    at < |log| && log[at].Created? && log[at].text == Print(Addr(p.block.family, v))
  }

  /** Since `own0` this allocator made exactly the inserts of these values, in this order. */
  ghost predicate Given(p: Pool, log: seq<Event>, own0: seq<nat>, own: seq<nat>, vs: seq<nat>) {
    && own0 <= own && |own| == |own0| + |vs|
    && forall k :: 0 <= k < |vs| ==> InsertOf(p, log, own[|own0| + k], vs[k])
  }

  /** The inserts of one call after another. */
  lemma GivenMore(p: Pool, log: seq<Event>, later: seq<Event>, own0: seq<nat>, own: seq<nat>, own': seq<nat>,
                  vs: seq<nat>, ws: seq<nat>)
    requires Given(p, log, own0, own, vs) && log <= later && Given(p, later, own, own', ws)
    ensures Given(p, later, own0, own', vs + ws)
  {
    var all := vs + ws;
    forall k | 0 <= k < |all| ensures InsertOf(p, later, own'[|own0| + k], all[k]) {
      if k < |vs| {
        assert InsertOf(p, log, own[|own0| + k], vs[k]);
      } else {
        assert InsertOf(p, later, own'[|own| + (k - |vs|)], ws[k - |vs|]);
      }
    }
  }

  /** A value this allocator handed out twice: the row of the first time was released before the second. */
  lemma TwiceReleased(p: Pool, log: seq<Event>, own0: seq<nat>, own: seq<nat>, vs: seq<nat>, j: nat, k: nat)
    requires Guarded(log) && Owns(log, own) && Given(p, log, own0, own, vs) && j < k < |vs| && vs[j] == vs[k]
    ensures var a, b := own[|own0| + j], own[|own0| + k];
            InsertOf(p, log, a, vs[j]) && exists e :: a < e < b && log[e].id == log[a].id
  {
    assert InsertOf(p, log, own[|own0| + j], vs[j]) && InsertOf(p, log, own[|own0| + k], vs[k]);
    OwnReleased(log, own, |own0| + j, |own0| + k);
  }

  lemma GivenStays(p: Pool, log: seq<Event>, later: seq<Event>, own0: seq<nat>, own: seq<nat>, vs: seq<nat>)
    requires Given(p, log, own0, own, vs) && log <= later
    ensures Given(p, later, own0, own, vs)
  {}

  /** How many inserts an allocation made: one for a success and for a row that was gone when read back, else none. */
  ghost predicate Inserted(p: Pool, log: seq<Event>, own0: seq<nat>, own: seq<nat>, r: Result<nat, Error>) {
    match r
    case Ok(v) => Given(p, log, own0, own, [v])
    case Err(ErrNotFound) => exists v: nat :: Given(p, log, own0, own, [v])
    case Err(_) => own == own0
  }

  lemma HandedStays(p: Pool, exclude: set<Text>, before: seq<Event>, log: seq<Event>, from: nat, out: seq<nat>)
    requires before <= log
    requires forall i :: 0 <= i < |out| ==> Handed(p, exclude, before, from, out[i])
    ensures forall i :: 0 <= i < |out| ==> Handed(p, exclude, log, from, out[i])
  {
    forall i | 0 <= i < |out| ensures Handed(p, exclude, log, from, out[i]) {
      assert Handed(p, exclude, before, from, out[i]);
      var k, id :| from <= k < |before| && before[k] == Created(id, Print(Addr(p.block.family, out[i])));
      assert log[k] == before[k];
    }
  }

  lemma FreeShrinks(p: Pool, small: set<Text>, large: set<Text>, v: nat)
    requires small <= large && Free(p.block.family, v, Taken(p, large))
    ensures Free(p.block.family, v, Taken(p, small))
  {
    assert Parsed(small) <= Parsed(large);
  }

  /** What is excluded up to `last` stays excluded, so the next free value lies above it. */
  lemma NextIsAbove(p: Pool, exclude: set<Text>, last: int, v: nat)
    requires Exhausted(p, exclude, last) && Lo(p) <= v && Free(p.block.family, v, Taken(p, exclude))
    ensures v > last
  {}

  /** The pool's least value that is neither the gateway nor excluded. */
  method Candidate(p: Pool, exclude: set<Text>) returns (c: Option<nat>)
    ensures c.Some? ==> Lo(p) <= c.value <= Hi(p) && Free(p.block.family, c.value, Taken(p, exclude))
    ensures c.Some? ==> Exhausted(p, exclude, c.value - 1)
    ensures c.None? ==> Exhausted(p, exclude, Hi(p))
  {
    var r, _ := FirstFree(p.block, Parsed(exclude), p.gateway, p.skipFirst, p.skipLast);
    return r;
  }

  lemma Advance(p: Pool, exclude: set<Text>, widened: set<Text>, last: int, v: nat)
    requires exclude <= widened && Lo(p) <= v && Free(p.block.family, v, Taken(p, widened))
    requires Exhausted(p, widened, last) && Exhausted(p, widened, v - 1)
    ensures v > last && Free(p.block.family, v, Taken(p, exclude))
    ensures Exhausted(p, widened + {Print(Addr(p.block.family, v))}, v)
  {
    NextIsAbove(p, widened, last, v);
    FreeShrinks(p, exclude, widened, v);
    TakenAdd(p, widened, v);
  }

  /** The text belonged to a live row at some moment since `from`. */
  ghost predicate Refused(log: seq<Event>, from: nat, t: Text) {
    exists k :: from <= k <= |log| && Holds(Live(log[..k]), t)
  }

  lemma RefusedStays(log: seq<Event>, later: seq<Event>, from: nat, since: nat, t: Text)
    requires Refused(log, since, t) && log <= later && from <= since
    ensures Refused(later, from, t)
  {
    var k :| since <= k <= |log| && Holds(Live(log[..k]), t);
    assert later[..k] == log[..k];
  }

  /** Values this caller tried and lost to somebody else's row. */
  ghost predicate AllRefused(p: Pool, log: seq<Event>, from: nat, lost: set<nat>) {
    forall v :: v in lost ==> Refused(log, from, Print(Addr(p.block.family, v)))
  }

  lemma AllRefusedStays(p: Pool, log: seq<Event>, later: seq<Event>, from: nat, since: nat, lost: set<nat>)
    requires AllRefused(p, log, since, lost) && log <= later && from <= since
    ensures AllRefused(p, later, from, lost)
  {
    forall v | v in lost ensures Refused(later, from, Print(Addr(p.block.family, v))) {
      RefusedStays(log, later, from, since, Print(Addr(p.block.family, v)));
    }
  }

  /** Every usable value up to `upTo`, not excluded and not below startFrom, is one of `passed`. */
  ghost predicate Lowest(p: Pool, exclude: set<Text>, startFrom: Option<Text>, upTo: int, passed: set<nat>) {
    forall v: nat ::
      Lo(p) <= v <= upTo && Free(p.block.family, v, Taken(p, exclude)) && !Below(Addr(p.block.family, v), startFrom) ==>
        v in passed
  }

  /** Above `last`, widening took nothing away. */
  ghost predicate SameAbove(p: Pool, exclude: set<Text>, widened: set<Text>, last: int) {
    forall v: nat :: v > last && Free(p.block.family, v, Taken(p, exclude)) ==>
      Free(p.block.family, v, Taken(p, widened))
  }

  lemma SameAboveAdd(p: Pool, exclude: set<Text>, widened: set<Text>, last: int, v: nat)
    requires SameAbove(p, exclude, widened, last) && v > last
    ensures SameAbove(p, exclude, widened + {Print(Addr(p.block.family, v))}, v)
  {
    TakenAdd(p, widened, v);
    forall w: nat | w > v && Free(p.block.family, w, Taken(p, exclude))
      ensures Free(p.block.family, w, Taken(p, widened + {Print(Addr(p.block.family, v))}))
    {
      CanonInjective(p.block.family, w, v);
    }
  }

  /** No usable value lies between two candidates taken one after the other. */
  lemma LowestNext(p: Pool, exclude: set<Text>, widened: set<Text>, startFrom: Option<Text>, last: int, next: int,
                   passed: set<nat>)
    requires Lowest(p, exclude, startFrom, last, passed) && SameAbove(p, exclude, widened, last)
          && Exhausted(p, widened, next)
    ensures Lowest(p, exclude, startFrom, next, passed)
  {}

  /** The values up to `last` are settled: excluded, below startFrom or lost. */
  ghost predicate Passed(p: Pool, exclude: set<Text>, widened: set<Text>, startFrom: Option<Text>, last: int,
                         lost: set<nat>) {
    && exclude <= widened && last >= Lo(p) - 1 && (forall v :: v in lost ==> v <= last)
    && Exhausted(p, widened, last) && SameAbove(p, exclude, widened, last) && Lowest(p, exclude, startFrom, last, lost)
  }

  /** The next candidate, settled with it. */
  lemma PassedNext(p: Pool, exclude: set<Text>, widened: set<Text>, startFrom: Option<Text>, last: int,
                   lost: set<nat>, v: nat)
    requires Passed(p, exclude, widened, startFrom, last, lost)
    requires Lo(p) <= v && Free(p.block.family, v, Taken(p, widened)) && Exhausted(p, widened, v - 1)
    ensures v > last && v !in lost && Free(p.block.family, v, Taken(p, exclude))
          && Lowest(p, exclude, startFrom, v - 1, lost)
    ensures var w := widened + {Print(Addr(p.block.family, v))};
            && Exhausted(p, w, v) && SameAbove(p, exclude, w, v)
            && Passed(p, exclude, w, startFrom, v, if Below(Addr(p.block.family, v), startFrom) then lost
                else lost + {v})
  {
    LowestNext(p, exclude, widened, startFrom, last, v - 1, lost);
    Advance(p, exclude, widened, last, v);
    SameAboveAdd(p, exclude, widened, last, v);
  }

  /** One more own insert, of this text. */
  ghost predicate ClaimedAt(log: seq<Event>, own0: seq<nat>, own: seq<nat>, t: Text) {
    && |own| == |own0| + 1 && own[..|own0|] == own0 && own[|own0|] < |log|
    && log[own[|own0|]].Created? && log[own[|own0|]].text == t
  }

  /** Insert a row for this allocator. */
  method Insert(st: AddressStore, row: Row) returns (ok: bool)
    requires st.Valid()
    modifies st
    ensures st.Valid() && old(st.log) <= st.log
    ensures ok <==> !Holds(Live(old(st.log)), row.address)
    ensures ok ==> CreatedIn(st.log, |old(st.log)|, row.address)
    ensures ok ==> ClaimedAt(st.log, old(st.own), st.own, row.address)
    ensures !ok ==> st.log == old(st.log) && st.own == old(st.own)
  {
    st.HasIsHolds(row.address);
    ok := st.CreateAddress(None, row);
    if ok {
      ghost var at := |old(st.log)|;
      ghost var i := st.log[at].id;
      assert st.log[at] == Created(i, row.address);
      OwnsMore(old(st.log), st.log, st.own, at);
      st.own := st.own + [at];
    }
  }

  /** Insert one candidate and read it back, with the other callers running in between. */
  method Claim(st: AddressStore, row: Row, schedule: nat -> seq<Step>) returns (r: Result<(), Error>)
    requires st.Valid()
    modifies st
    ensures st.Valid() && old(st.log) <= st.log
    ensures r == Err(ErrConflict) ==> Refused(st.log, |old(st.log)|, row.address)
    ensures r != Err(ErrConflict) ==> CreatedIn(st.log, |old(st.log)|, row.address)
    ensures r.Ok? ==> st.Has(row.address)
    ensures r.Err? && r.error != ErrConflict ==> r.error == ErrNotFound && !st.Has(row.address)
    ensures r == Err(ErrConflict) ==> st.own == old(st.own)
    ensures r != Err(ErrConflict) ==> ClaimedAt(st.log, old(st.own), st.own, row.address)
  {
    st.Interfere(schedule);
    ghost var mid := st.log;
    assert mid[..|mid|] == mid;
    var ok := Insert(st, row);
    if !ok {
      return Err(ErrConflict);
    }
    CreatedEarlier(st.log, |old(st.log)|, |mid|, row.address);
    ghost var done := st.log;
    st.Interfere(schedule);
    CreatedStays(done, st.log, |old(st.log)|, row.address);
    return if st.Has(row.address) then Ok(()) else Err(ErrNotFound);
  }

  lemma CreatedStays(log: seq<Event>, later: seq<Event>, from: nat, t: Text)
    requires CreatedIn(log, from, t) && log <= later
    ensures CreatedIn(later, from, t)
  {
    var k, i :| from <= k < |log| && log[k] == Created(i, t);
    assert later[k] == Created(i, t);
  }

  /** What an allocation reports about the values it handed out and passed over. */
  ghost predicate Allocated(p: Pool, exclude: set<Text>, startFrom: Option<Text>, log: seq<Event>, from: nat,
                            r: Result<nat, Error>, lost: set<nat>) {
    && AllRefused(p, log, from, lost)
    && match r
       case Ok(v) => Handed(p, exclude, log, from, v) && !Below(Addr(p.block.family, v), startFrom)
         && Lowest(p, exclude, startFrom, v - 1, lost)
       case Err(ErrNoAvailable) => Lowest(p, exclude, startFrom, Hi(p), lost)
       case Err(ErrConflict) => |lost| == 20
       case Err(ErrNotFound) => exists v: nat :: Handed(p, exclude, log, from, v)
  }

  /**
   addresses.allocInto. `widened` is the caller's exclude set afterwards, `lost` the values it
   tried and could not insert. Whatever the schedule does, a success is the lowest value of the
   pool that was neither the gateway, excluded, below startFrom nor taken by another row in the
   meantime, inserted while no live row had its text; a failure has one of three causes.
   */
  method AllocInto(st: AddressStore, p: Pool, exclude: set<Text>, startFrom: Option<Text>, hostname: string,
                   schedule: nat -> seq<Step>)
    returns (r: Result<nat, Error>, widened: set<Text>, ghost lost: set<nat>)
    requires st.Valid()
    modifies st
    ensures st.Valid() && old(st.log) <= st.log
    ensures exclude <= widened
    ensures Allocated(p, exclude, startFrom, st.log, |old(st.log)|, r, lost)
    ensures Inserted(p, st.log, old(st.own), st.own, r)
    ensures r.Ok? ==> Exhausted(p, widened, r.value) && SameAbove(p, exclude, widened, r.value)
  {
    widened, lost := exclude, {};
    var conflicts := 0;
    ghost var last := Lo(p) - 1;
    while true
      invariant st.Valid() && old(st.log) <= st.log
      invariant Passed(p, exclude, widened, startFrom, last, lost) && st.own == old(st.own)
      invariant AllRefused(p, st.log, |old(st.log)|, lost) && |lost| == conflicts < MAX_ALLOC_TRIES
      decreases Hi(p) - last
    {
      var c := Candidate(p, widened);
      if c.None? {
        LowestNext(p, exclude, widened, startFrom, last, Hi(p), lost);
        return Err(ErrNoAvailable), widened, lost;
      }
      var v := c.value;
      var text := Print(Addr(p.block.family, v));
      PassedNext(p, exclude, widened, startFrom, last, lost, v);
      widened := widened + {text};
      last := v;
      if Below(Addr(p.block.family, v), startFrom) {
        continue;
      }
      r := Try(st, p, exclude, startFrom, v, hostname, schedule, lost, |old(st.log)|);
      if r != Err(ErrConflict) {
        return;
      }
      conflicts := conflicts + 1;
      lost := lost + {v};
      if conflicts >= MAX_ALLOC_TRIES {
        return Err(ErrConflict), widened, lost;
      }
    }
  }

  /** One candidate of the allocation loop. */
  method Try(st: AddressStore, p: Pool, ghost exclude: set<Text>, ghost startFrom: Option<Text>, v: nat,
             hostname: string, schedule: nat -> seq<Step>, ghost lost: set<nat>, ghost from: nat)
    returns (r: Result<nat, Error>)
    requires st.Valid() && from <= |st.log| && AllRefused(p, st.log, from, lost)
    requires Lo(p) <= v <= Hi(p) && Free(p.block.family, v, Taken(p, exclude))
    requires !Below(Addr(p.block.family, v), startFrom) && Lowest(p, exclude, startFrom, v - 1, lost)
    modifies st
    ensures st.Valid() && old(st.log) <= st.log
    ensures r.Ok? ==> r.value == v
    ensures r == Err(ErrConflict) ==> AllRefused(p, st.log, from, lost + {v})
    ensures r != Err(ErrConflict) ==> Allocated(p, exclude, startFrom, st.log, from, r, lost)
    ensures Inserted(p, st.log, old(st.own), st.own, r)
  {
    ghost var before := st.log;
    var text := Print(Addr(p.block.family, v));
    var o := Claim(st, Row(text, p.id, hostname), schedule);
    AllRefusedStays(p, before, st.log, from, from, lost);
    if o == Err(ErrConflict) {
      RefusedStays(st.log, st.log, from, |before|, text);
    } else {
      CreatedEarlier(st.log, from, |before|, text);
      assert Handed(p, exclude, st.log, from, v) && Given(p, st.log, old(st.own), st.own, [v]);
    }
    return if o.Ok? then Ok(v) else Err(o.error);
  }

  /** addresses.AllocateNext: the exclude set is read once, then one allocation runs. */
  method AllocateNext(st: AddressStore, p: Pool, startFrom: Option<Text>, skips: set<Text>, schedule: nat -> seq<Step>)
    returns (r: Result<nat, Error>, ghost lost: set<nat>)
    requires st.Valid()
    modifies st
    ensures st.Valid() && old(st.log) <= st.log
    ensures Allocated(p, old(st.AllocatedSet(p.id, skips)), startFrom, st.log, |old(st.log)|, r, lost)
    ensures Inserted(p, st.log, old(st.own), st.own, r)
    ensures r.Ok? ==> Print(Addr(p.block.family, r.value)) !in skips && p.gateway != Some(Addr(p.block.family, r.value))
    ensures r.Ok? && ValidBlock(p.block) ==> Open(p, old(st.AllocatedSet(p.id, skips)), r.value)
  {
    var exclude := st.AllocatedSet(p.id, skips);
    var widened;
    r, widened, lost := AllocInto(st, p, exclude, startFrom, "", schedule);
    if r.Ok? {
      FreeAvoids(p, exclude, r.value);
      if ValidBlock(p.block) { OpenIsFree(p, exclude, r.value); }
    }
  }

  // ---- in terms of the block

  /** A host of the pool's block that is not skipped, not excluded and not the gateway. */
  ghost predicate Open(p: Pool, exclude: set<Text>, v: nat) {
    && Admissible(p.block, v, p.skipFirst, p.skipLast)
    && Avoids(Addr(p.block.family, v), Parsed(exclude), p.gateway)
  }

  lemma OpenIsFree(p: Pool, exclude: set<Text>, v: nat)
    requires ValidBlock(p.block)
    ensures Open(p, exclude, v) <==> Lo(p) <= v <= Hi(p) && Free(p.block.family, v, Taken(p, exclude))
  {
    BoundsAreAdmissible(p.block, v, p.skipFirst, p.skipLast);
    FreeIffAvoids(p.block.family, v, Parsed(exclude), p.gateway);
  }

  /** A start address of the pool's own family compares by number. */
  lemma BelowIsLess(f: Family, v: nat, start: nat, spelling: nat)
    ensures Below(Addr(f, v), Some(Text(Some(Addr(f, start)), spelling))) <==> v < start
  {
    CanonIs(Addr(f, v));
  }

  /** The value allocated from `start` on, read off the block: every open host between was lost to another row. */
  lemma AllocatedIsLowest(p: Pool, exclude: set<Text>, start: nat, spelling: nat, log: seq<Event>, from: nat, v: nat,
                          lost: set<nat>)
    requires ValidBlock(p.block)
    requires Allocated(p, exclude, Some(Text(Some(Addr(p.block.family, start)), spelling)), log, from, Ok(v), lost)
    ensures v >= start && Open(p, exclude, v)
    ensures forall w: nat :: start <= w < v && Open(p, exclude, w) ==> w in lost
  {
    OpenIsFree(p, exclude, v);
    BelowIsLess(p.block.family, v, start, spelling);
    forall w: nat | start <= w < v && Open(p, exclude, w) ensures w in lost {
      OpenIsFree(p, exclude, w);
      BelowIsLess(p.block.family, w, start, spelling);
    }
  }

  lemma FreeAvoids(p: Pool, exclude: set<Text>, v: nat)
    requires Free(p.block.family, v, Taken(p, exclude))
    ensures Print(Addr(p.block.family, v)) !in exclude
    ensures p.gateway != Some(Addr(p.block.family, v))
  {
    var a := Addr(p.block.family, v);
    CanonCanon(a);
    assert Print(a) in exclude ==> Canon(a) in Parsed(exclude);
  }

  /** The values handed out so far: ascending, each handed out, and nothing usable left out below the last. */
  ghost predicate Bulk(p: Pool, exclude: set<Text>, log: seq<Event>, from: nat, out: seq<nat>, lost: set<nat>,
                       upTo: int) {
    && (forall i :: 0 <= i < |out| ==> Handed(p, exclude, log, from, out[i]) && out[i] <= upTo)
    && (forall i, j :: 0 <= i < j < |out| ==> out[i] < out[j])
    && AllRefused(p, log, from, lost) && Lowest(p, exclude, None, upTo, lost + (set v | v in out))
  }

  lemma BulkStays(p: Pool, exclude: set<Text>, before: seq<Event>, log: seq<Event>, from: nat, out: seq<nat>,
                  lost: set<nat>, upTo: int)
    requires Bulk(p, exclude, before, from, out, lost, upTo) && before <= log
    ensures Bulk(p, exclude, log, from, out, lost, upTo)
  {
    HandedStays(p, exclude, before, log, from, out);
    AllRefusedStays(p, before, log, from, from, lost);
  }

  lemma BulkLost(p: Pool, exclude: set<Text>, widened: set<Text>, log: seq<Event>, from: nat, out: seq<nat>,
                 lost: set<nat>, last: int, more: set<nat>, upTo: int)
    requires Bulk(p, exclude, log, from, out, lost, last) && SameAbove(p, exclude, widened, last) && last <= upTo
    requires Lowest(p, widened, None, upTo, more) && AllRefused(p, log, from, more)
    ensures Bulk(p, exclude, log, from, out, lost + more, upTo)
  {}

  lemma BulkAdd(p: Pool, exclude: set<Text>, log: seq<Event>, from: nat, out: seq<nat>, lost: set<nat>, v: nat)
    requires Bulk(p, exclude, log, from, out, lost, v - 1) && Handed(p, exclude, log, from, v)
    ensures Bulk(p, exclude, log, from, out + [v], lost, v)
  {
    LowestAdd(p, exclude, lost, out, v);
  }

  lemma LowestAdd(p: Pool, exclude: set<Text>, lost: set<nat>, out: seq<nat>, v: nat)
    requires Lowest(p, exclude, None, v - 1, lost + (set x | x in out))
    ensures Lowest(p, exclude, None, v, lost + (set x | x in out + [v]))
  {
    var was, now := lost + (set x | x in out), lost + (set x | x in out + [v]);
    assert v in out + [v] && v in now;
    forall x | x in was ensures x in now { assert x in out ==> x in out + [v]; }
  }

  function LastOf(p: Pool, out: seq<nat>): int {
    if out == [] then Lo(p) - 1 else out[|out| - 1]
  }

  /** The bulk loop's state: the exclude set covers what was handed out, and nothing above it. */
  ghost predicate InBulk(p: Pool, exclude: set<Text>, widened: set<Text>, log: seq<Event>, from: nat, out: seq<nat>,
                         lost: set<nat>) {
    && exclude <= widened && Bulk(p, exclude, log, from, out, lost, LastOf(p, out))
    && Exhausted(p, widened, LastOf(p, out)) && SameAbove(p, exclude, widened, LastOf(p, out))
  }

  /** With the inserts made so far. */
  ghost predicate Looping(p: Pool, exclude: set<Text>, widened: set<Text>, log: seq<Event>, from: nat, out: seq<nat>,
                          lost: set<nat>, own0: seq<nat>, own: seq<nat>) {
    InBulk(p, exclude, widened, log, from, out, lost) && Given(p, log, own0, own, out)
  }

  lemma BulkStart(p: Pool, exclude: set<Text>, log: seq<Event>, from: nat, own: seq<nat>)
    ensures Looping(p, exclude, exclude, log, from, [], {}, own, own)
  {}

  /** The inserts of these values, and when the last row was gone before it could be read back, of that one. */
  ghost predicate GivenBut(p: Pool, log: seq<Event>, own0: seq<nat>, own: seq<nat>, out: seq<nat>, gone: bool) {
    if gone then exists v: nat :: Given(p, log, own0, own, out + [v]) else Given(p, log, own0, own, out)
  }

  /** How a bulk allocation ended. */
  ghost predicate BulkDone(p: Pool, exclude: set<Text>, log: seq<Event>, from: nat, out: seq<nat>, lost: set<nat>,
                           own0: seq<nat>, own: seq<nat>, err: Option<Error>) {
    && Bulk(p, exclude, log, from, out, lost, LastOf(p, out))
    && (err == Some(ErrNoAvailable) ==> Lowest(p, exclude, None, Hi(p), lost + (set v | v in out)))
    && GivenBut(p, log, own0, own, out, err == Some(ErrNotFound))
  }

  lemma LoopDone(p: Pool, exclude: set<Text>, widened: set<Text>, log: seq<Event>, from: nat, out: seq<nat>,
                 lost: set<nat>, own0: seq<nat>, own: seq<nat>)
    requires Looping(p, exclude, widened, log, from, out, lost, own0, own)
    ensures BulkDone(p, exclude, log, from, out, lost, own0, own, None)
  {}

  /**
   addresses.BulkAllocate: the values handed out ascend strictly, also when it stops early, and they
   are exactly this caller's inserts, apart from one whose row was gone when it was read back.
   */
  method BulkAllocate(st: AddressStore, p: Pool, count: int, schedule: nat -> seq<Step>)
    returns (out: seq<nat>, err: Option<Error>, ghost lost: set<nat>)
    requires st.Valid()
    modifies st
    ensures st.Valid() && old(st.log) <= st.log
    ensures err.None? ==> |out| == if count > 0 then count else 0
    ensures err.Some? ==> |out| < count
    ensures BulkDone(p, old(st.AllocatedSet(p.id, {})), st.log, |old(st.log)|, out, lost, old(st.own), st.own, err)
  {
    out, err, lost := [], None, {};
    var exclude := st.AllocatedSet(p.id, {});
    var widened := exclude;
    BulkStart(p, exclude, st.log, |st.log|, st.own);
    while |out| < count
      invariant st.Valid() && old(st.log) <= st.log
      invariant count > 0 ==> |out| <= count
      invariant count <= 0 ==> out == []
      invariant Looping(p, exclude, widened, st.log, |old(st.log)|, out, lost, old(st.own), st.own)
    {
      var r;
      r, widened, lost := BulkRound(st, p, exclude, widened, schedule, |old(st.log)|, out, lost, old(st.own));
      if r.Err? {
        return out, Some(r.error), lost;
      }
      out := out + [r.value];
    }
    LoopDone(p, exclude, widened, st.log, |old(st.log)|, out, lost, old(st.own), st.own);
    return out, None, lost;
  }

  /** One round of the bulk loop, after the other callers have had a turn. */
  method BulkRound(st: AddressStore, p: Pool, ghost exclude: set<Text>, was: set<Text>, schedule: nat -> seq<Step>,
                   ghost from: nat, ghost out: seq<nat>, ghost lost0: set<nat>, ghost own0: seq<nat>)
    returns (r: Result<nat, Error>, widened: set<Text>, ghost lost: set<nat>)
    requires st.Valid() && from <= |st.log| && Looping(p, exclude, was, st.log, from, out, lost0, own0, st.own)
    modifies st
    ensures st.Valid() && old(st.log) <= st.log
    ensures r.Err? ==> BulkDone(p, exclude, st.log, from, out, lost, own0, st.own, Some(r.error))
    ensures r.Ok? ==> Looping(p, exclude, widened, st.log, from, out + [r.value], lost, own0, st.own)
  {
    ghost var more;
    r, widened, more := AllocOne(st, p, was, schedule);
    lost := lost0 + more;
    GivenNext(p, old(st.log), st.log, own0, old(st.own), st.own, out, r);
    if r.Ok? {
      RoundOk(p, exclude, was, widened, old(st.log), st.log, from, out, lost0, more, r.value);
    } else {
      RoundErr(p, exclude, was, old(st.log), st.log, from, out, lost0, more, r.error);
    }
  }

  lemma RoundOk(p: Pool, exclude: set<Text>, was: set<Text>, widened: set<Text>, before: seq<Event>, log: seq<Event>,
                from: nat, out: seq<nat>, lost0: set<nat>, more: set<nat>, v: nat)
    requires InBulk(p, exclude, was, before, from, out, lost0) && before <= log && from <= |before| && was <= widened
    requires Allocated(p, was, None, log, |before|, Ok(v), more)
    requires Exhausted(p, widened, v) && SameAbove(p, was, widened, v)
    ensures InBulk(p, exclude, widened, log, from, out + [v], lost0 + more)
  {
    var last := LastOf(p, out);
    BulkStays(p, exclude, before, log, from, out, lost0, last);
    AllRefusedStays(p, log, log, from, |before|, more);
    NextIsAbove(p, was, last, v);
    FreeShrinks(p, exclude, was, v);
    CreatedEarlier(log, from, |before|, Print(Addr(p.block.family, v)));
    BulkLost(p, exclude, was, log, from, out, lost0, last, more, v - 1);
    BulkAdd(p, exclude, log, from, out, lost0 + more, v);
    SameAboveBoth(p, exclude, was, widened, last, v);
  }

  lemma RoundErr(p: Pool, exclude: set<Text>, was: set<Text>, before: seq<Event>, log: seq<Event>, from: nat,
                 out: seq<nat>, lost0: set<nat>, more: set<nat>, err: Error)
    requires InBulk(p, exclude, was, before, from, out, lost0) && before <= log && from <= |before|
    requires Allocated(p, was, None, log, |before|, Err(err), more)
    ensures Bulk(p, exclude, log, from, out, lost0 + more, LastOf(p, out))
    ensures err == ErrNoAvailable ==> Lowest(p, exclude, None, Hi(p), lost0 + more + (set v | v in out))
  {
    BulkStays(p, exclude, before, log, from, out, lost0, LastOf(p, out));
    AllRefusedStays(p, log, log, from, |before|, more);
  }

  ghost predicate GivenAfter(p: Pool, log: seq<Event>, own0: seq<nat>, own: seq<nat>, out: seq<nat>,
                             r: Result<nat, Error>) {
    match r
    case Ok(v) => Given(p, log, own0, own, out + [v])
    case Err(e) => GivenBut(p, log, own0, own, out, e == ErrNotFound)
  }

  lemma GivenNext(p: Pool, log: seq<Event>, later: seq<Event>, own0: seq<nat>, own: seq<nat>, own': seq<nat>,
                  out: seq<nat>, r: Result<nat, Error>)
    requires Given(p, log, own0, own, out) && log <= later && Inserted(p, later, own, own', r)
    ensures GivenAfter(p, later, own0, own', out, r)
  {
    match r
    case Ok(v) => GivenMore(p, log, later, own0, own, own', out, [v]);
    case Err(ErrNotFound) =>
      var v: nat :| Given(p, later, own, own', [v]);
      GivenMore(p, log, later, own0, own, own', out, [v]);
    case Err(_) => GivenStays(p, log, later, own0, own, out);
  }

  lemma SameAboveBoth(p: Pool, exclude: set<Text>, was: set<Text>, widened: set<Text>, last: int, next: int)
    requires SameAbove(p, exclude, was, last) && SameAbove(p, was, widened, next) && last <= next
    ensures SameAbove(p, exclude, widened, next)
  {}

  method AllocOne(st: AddressStore, p: Pool, exclude: set<Text>, schedule: nat -> seq<Step>)
    returns (r: Result<nat, Error>, widened: set<Text>, ghost lost: set<nat>)
    requires st.Valid()
    modifies st
    ensures st.Valid() && old(st.log) <= st.log
    ensures exclude <= widened
    ensures Allocated(p, exclude, None, st.log, |old(st.log)|, r, lost)
    ensures Inserted(p, st.log, old(st.own), st.own, r)
    ensures r.Ok? ==> Exhausted(p, widened, r.value) && SameAbove(p, exclude, widened, r.value)
  {
    st.Interfere(schedule);
    ghost var mid := |st.log|;
    r, widened, lost := AllocInto(st, p, exclude, None, "", schedule);
    AllocatedEarlier(p, exclude, st.log, |old(st.log)|, mid, r, lost);
  }

  lemma AllocatedEarlier(p: Pool, exclude: set<Text>, log: seq<Event>, from: nat, since: nat, r: Result<nat, Error>,
                         lost: set<nat>)
    requires Allocated(p, exclude, None, log, since, r, lost) && from <= since
    ensures Allocated(p, exclude, None, log, from, r, lost)
  {
    AllRefusedStays(p, log, log, from, since, lost);
    if r.Ok? { CreatedEarlier(log, from, since, Print(Addr(p.block.family, r.value))); }
    if r == Err(ErrNotFound) {
      var v: nat :| Handed(p, exclude, log, since, v);
      CreatedEarlier(log, from, since, Print(Addr(p.block.family, v)));
      assert Handed(p, exclude, log, from, v);
    }
  }
}
