/**
 Reconciling with inventory (internal/hostsync/reconcile.go, runner.go): every host of the listing
 is compared with the device linked to it, then every linked device the listing did not mention.
 What one host's visit does is applying its report to the store, or marking its device gone.
 */
module HostReconcile {
  import opened Wrappers
  import opened HostStore
  import opened HostReport
  import opened HostPlan
  import opened HostLoad
  import opened HostSelf
  import opened HostGone
  import opened HostMem

  // ---- inventory and the devices linked to it

  /** A host in inventory: its latest report, and whether the listing mentions it. */
  datatype Entry = Entry(report: Report, retired: bool, listed: bool)

  type Inventory = map<string, Entry>

  /** What the runner remembers about a linked device. */
  datatype Ref = Ref(digest: string, state: ReportState)

  predicate Folded(h: string) {
    Lower(h) == h
  }

  ghost predicate ValidInventory(inv: Inventory) {
    forall h :: h in inv ==> inv[h].report.host == h && Normalized(inv[h].report)
  }

  function Get<V>(m: map<string, V>, h: string): Option<V> {
    if h in m then Some(m[h]) else None
  }

  lemma LowerTwice(s: string)
    ensures Lower(Lower(s)) == Lower(s)
  {}

  function RefOf(d: Device): Ref {
    Ref(d.cols.digest, d.cols.state)
  }

  ghost predicate HasDevice(m: map<Id, Device>, h: string) {
    exists i :: i in m && LinkedTo(m[i], h)
  }

  /** The device linked to the host, as the runner sees it. */
  ghost function RefAt(m: map<Id, Device>, h: string): Option<Ref> {
    if HasDevice(m, h) then
      var i :| i in m && LinkedTo(m[i], h);
      Some(RefOf(m[i]))
    else None
  }

  lemma RefIs(m: map<Id, Device>, h: string, i: Id)
    requires UniqueHosts(m) && i in m && LinkedTo(m[i], h)
    ensures RefAt(m, h) == Some(RefOf(m[i]))
  {
    assert HasDevice(m, h);
    var j :| j in m && LinkedTo(m[j], h) && RefAt(m, h) == Some(RefOf(m[j]));
    assert LinkedTo(m[i], m[j].cols.inventory);
  }

  /** Only devices of host `h` are seen differently. */
  ghost predicate OnlyHost(m: map<Id, Device>, m': map<Id, Device>, h: string) {
    forall g :: Lower(g) != Lower(h) ==> RefAt(m', g) == RefAt(m, g)
  }

  /** A host whose devices are the same rows with the same columns is seen the same. */
  lemma SameRef(m: map<Id, Device>, m': map<Id, Device>, g: string)
    requires UniqueHosts(m) && UniqueHosts(m')
    requires forall i :: i in m && LinkedTo(m[i], g) ==> i in m' && m'[i].cols == m[i].cols
    requires forall i :: i in m' && LinkedTo(m'[i], g) ==> i in m && m[i].cols == m'[i].cols
    ensures RefAt(m', g) == RefAt(m, g)
  {
    if HasDevice(m', g) {
      var i :| i in m' && LinkedTo(m'[i], g);
      assert LinkedTo(m[i], g);
    }
    if HasDevice(m, g) {
      var i :| i in m && LinkedTo(m[i], g);
      RefIs(m, g, i);
      RefIs(m', g, i);
    }
  }

  // ---- one visit

  /** An applied report: its host's device is reported with the report's digest, other hosts' devices are the same. */
  ghost predicate Took(s: Store, t: Store, r: Report) {
    RefAt(t.devices, r.host) == Some(Ref(r.digest, Reported)) && OnlyHost(s.devices, t.devices, r.host)
  }

  lemma SyncedTook(s: Store, t: Store, r: Report, dev: Id)
    requires UniqueHosts(s.devices) && UniqueHosts(t.devices) && Normalized(r)
    requires DeviceSettled(t.devices, dev, r) && DevicesFramed(s, t, dev, r)
    ensures Took(s, t, r)
  {
    RefIs(t.devices, r.host, dev);
    forall g | Lower(g) != Lower(r.host) ensures RefAt(t.devices, g) == RefAt(s.devices, g) {
      SameRef(s.devices, t.devices, g);
    }
  }

  function GoneRef(d: Option<Ref>): Option<Ref> {
    if d.Some? then Some(d.value.(state := NotReported)) else None
  }

  /** A host marked gone: its device, if any, is no longer reported, other hosts' devices are the same. */
  lemma GoneTook(s: Store, t: Store, h: string)
    requires UniqueHosts(s.devices) && UniqueHosts(t.devices) && GoneStep(s, t, h)
    ensures RefAt(t.devices, h) == GoneRef(RefAt(s.devices, h)) && OnlyHost(s.devices, t.devices, h)
  {
    if i :| InUse(s, i, h) {
      RefIs(s.devices, h, i);
      RefIs(t.devices, h, i);
      forall g | Lower(g) != Lower(h) ensures RefAt(t.devices, g) == RefAt(s.devices, g) {
        SameRef(s.devices, t.devices, g);
      }
    } else if HasDevice(s.devices, h) {
      var i :| i in s.devices && LinkedTo(s.devices[i], h);
      RefIs(s.devices, h, i);
      assert !InUse(s, i, h);
    }
  }

  // ---- what a host needs

  datatype Action = Leave | Mark | Fetch

  function ActionFor(d: Option<Ref>, i: Option<Entry>): Action {
    if i.Some? && i.value.listed then
      if i.value.retired then (if d.Some? && d.value.state != NotReported then Mark else Leave)
      else if d.Some? && d.value.state == Reported && i.value.report.digest != ""
        && d.value.digest == i.value.report.digest
      then Leave
      else Fetch
    else if d.None? || d.value.state == NotReported then Leave
    else if i.None? then Mark
    else Fetch
  }

  /** How a host's device is seen after the action on what is seen now. */
  function Did(now: Option<Ref>, i: Option<Entry>, a: Action): Option<Ref> {
    match a
    case Leave => now
    case Mark => GoneRef(now)
    case Fetch => if i.Some? && !i.value.retired then Some(Ref(i.value.report.digest, Reported)) else GoneRef(now)
  }

  function After(d: Option<Ref>, i: Option<Entry>): Option<Ref> {
    Did(d, i, ActionFor(d, i))
  }

  /** Host `h` was acted on, or nothing changed. */
  ghost predicate Acted(s: Store, t: Store, h: string, i: Option<Entry>, a: Action, ok: bool) {
    && (!ok ==> t == s) && (ok ==> RefAt(t.devices, h) == Did(RefAt(s.devices, h), i, a))
    && OnlyHost(s.devices, t.devices, h) && AdminKept(s, t)
  }

  /** Visiting host `h`, seen as `d` when the run began. */
  ghost predicate Visited(s: Store, t: Store, inv: Inventory, d: Option<Ref>, h: string, did: bool, ok: bool) {
    var a := ActionFor(d, Get(inv, h));
    (did <==> a != Leave) && (!did ==> t == s && ok) && Acted(s, t, h, Get(inv, h), a, ok)
  }

  /** The parameters and faults one visit meets. */
  datatype Env = Env(p: Params, again: Params, fault: Option<nat>, faultAgain: Option<nat>)

  ghost predicate ValidEnv(env: nat -> Env) {
    forall n :: env(n).p.conflictWindow >= 0 && env(n).again.conflictWindow >= 0
  }

  /** Some visit meets a fault of the store. */
  ghost predicate Faulty(env: nat -> Env) {
    exists n :: env(n).fault.Some?
  }

  /** Where a transaction leaves the store. */
  ghost predicate TookOrKept(s: Store, t: Store, r: Report, e: Option<TxError>) {
    if e.None? then Took(s, t, r) && AdminKept(s, t) else t == s
  }

  /** The planner's plan for the report, from this store, runs into a refused write. */
  ghost predicate Refusal(s: Store, r: Report) {
    exists next, p, plan :: Planned(s, next, r, p, plan) && Exec(s, plan.ops).Err?
  }

  /** A report fails only for a disabled tenant, by the store's own fault, or when a planned write is refused. */
  ghost predicate Excused(on: bool, s: Store, r: Report, faulty: bool, e: Option<TxError>) {
    (e == Some(ErrSyncDisabled) ==> !on) && (e.Some? ==> !on || faulty || Refusal(s, r))
  }

  lemma {:induction false} ExecErrors(s: Store, ops: seq<Op>)
    ensures Exec(s, ops).Err? ==> Exec(s, ops).error == ErrConflict || Exec(s, ops).error == ErrNotFound
    decreases |ops|
  {
    if ops != [] && Perform(s, ops[0]).Ok? { ExecErrors(Perform(s, ops[0]).value, ops[1..]); }
  }

  lemma OutcomeExcused(on: bool, s: Store, t: Store, next: Id, r: Report, p: Params, fault: Option<nat>,
                       e: Option<TxError>, plan: Plan)
    requires Outcome(on, s, t, next, r, p, fault, e, plan)
    ensures Excused(on, s, r, fault.Some?, e)
  {
    ExecErrors(s, plan.ops);
  }

  lemma OutcomeTook(on: bool, s: Store, t: Store, next: Id, r: Report, p: Params, fault: Option<nat>,
                    e: Option<TxError>, plan: Plan)
    requires Outcome(on, s, t, next, r, p, fault, e, plan) && WellFormed(s) && Normalized(r)
    ensures TookOrKept(s, t, r, e)
  {
    if e.None? { SyncedTook(s, t, r, plan.device); }
  }

  method Attempt(m: Mem, r: Report, p: Params, fault: Option<nat>) returns (e: Option<TxError>)
    requires Ready(m.Data(), m.next, r, p)
    modifies m
    ensures m.enabled == old(m.enabled) && Sane(m.Data(), m.next)
    ensures TookOrKept(old(m.Data()), m.Data(), r, e)
    ensures Excused(m.enabled, old(m.Data()), r, fault.Some?, e)
  {
    var plan;
    e, plan := m.ApplyHostReport(r, p, fault);
    OutcomeTook(old(m.enabled), old(m.Data()), m.Data(), old(m.next), r, p, fault, e, plan);
    OutcomeExcused(old(m.enabled), old(m.Data()), m.Data(), old(m.next), r, p, fault, e, plan);
  }

  /** runner.Apply of a live host: one transaction, tried again once after a conflict. */
  method ApplyReport(m: Mem, r: Report, env: Env) returns (e: Option<TxError>)
    requires Ready(m.Data(), m.next, r, env.p) && env.again.conflictWindow >= 0
    modifies m
    ensures m.enabled == old(m.enabled) && Sane(m.Data(), m.next)
    ensures TookOrKept(old(m.Data()), m.Data(), r, e)
    ensures Excused(m.enabled, old(m.Data()), r, env.fault.Some? || env.faultAgain.Some?, e)
  {
    e := Attempt(m, r, env.p, env.fault);
    if e == Some(ErrConflict) {
      e := Attempt(m, r, env.again, env.faultAgain);
    }
  }

  /** The host marked gone, or nothing changed. */
  ghost predicate MarkedOrKept(s: Store, t: Store, h: string, e: Option<TxError>) {
    if e.None? then RefAt(t.devices, h) == GoneRef(RefAt(s.devices, h)) && OnlyHost(s.devices, t.devices, h)
      && AdminKept(s, t)
    else t == s
  }

  lemma GoneMarked(on: bool, s: Store, t: Store, h: string, faulty: bool, e: Option<TxError>)
    requires MarkEnds(on, s, t, h, faulty, e) && UniqueHosts(s.devices) && UniqueHosts(t.devices)
    ensures MarkedOrKept(s, t, h, e)
    ensures e.Some? ==> (if on then faulty && e.value == ErrFault else e.value == ErrSyncDisabled)
  {
    if e.None? { GoneTook(s, t, h); }
  }

  lemma MarkedActed(s: Store, t: Store, h: string, i: Option<Entry>, a: Action, e: Option<TxError>)
    requires MarkedOrKept(s, t, h, e) && a != Leave && (a == Fetch ==> i.Some? && i.value.retired)
    ensures Acted(s, t, h, i, a, e.None?)
  {}

  lemma TookActed(s: Store, t: Store, i: Entry, e: Option<TxError>)
    requires TookOrKept(s, t, i.report, e) && !i.retired
    ensures Acted(s, t, i.report.host, Some(i), Fetch, e.None?)
  {}

  method MarkHostGone(m: Mem, h: string, env: Env) returns (e: Option<TxError>)
    requires Sane(m.Data(), m.next)
    modifies m
    ensures m.enabled == old(m.enabled) && Sane(m.Data(), m.next)
    ensures MarkedOrKept(old(m.Data()), m.Data(), h, e)
    ensures e.Some? ==> (if m.enabled then env.fault.Some? && e.value == ErrFault else e.value == ErrSyncDisabled)
  {
    e := m.MarkGone(h, env.fault);
    GoneMarked(m.enabled, old(m.Data()), m.Data(), h, env.fault.Some?, e);
  }

  /** runner.handle with force: an error other than a disabled tenant is booked as a failure. */
  method Handle(m: Mem, i: Entry, env: Env) returns (e: Option<TxError>, ok: bool)
    requires Ready(m.Data(), m.next, i.report, env.p) && env.again.conflictWindow >= 0
    modifies m
    ensures m.enabled == old(m.enabled) && Sane(m.Data(), m.next) && (e.Some? ==> !ok)
    ensures Acted(old(m.Data()), m.Data(), i.report.host, Some(i), Fetch, ok)
    ensures e.Some? ==> !m.enabled
    ensures !ok ==> !m.enabled || env.fault.Some? || env.faultAgain.Some? || Refusal(old(m.Data()), i.report)
  {
    if i.retired {
      e := MarkHostGone(m, i.report.host, env);
      MarkedActed(old(m.Data()), m.Data(), i.report.host, Some(i), Fetch, e);
    } else {
      e := ApplyReport(m, i.report, env);
      TookActed(old(m.Data()), m.Data(), i, e);
    }
    ok := e.None?;
    if e != Some(ErrSyncDisabled) { e := None; }
  }

  /** A retired host of the listing: its device in use is marked. */
  method VisitRetired(m: Mem, inv: Inventory, h: string, d: Option<Ref>, env: Env)
    returns (e: Option<TxError>, did: bool, ok: bool)
    requires h in inv && inv[h].listed && inv[h].retired && Sane(m.Data(), m.next)
    modifies m
    ensures m.enabled == old(m.enabled) && Sane(m.Data(), m.next)
          && (e.Some? ==> !ok && (m.enabled ==> env.fault.Some?))
    ensures Visited(old(m.Data()), m.Data(), inv, d, h, did, ok)
  {
    e, did, ok := None, false, true;
    if d.Some? && d.value.state != NotReported {
      did := true;
      e := MarkHostGone(m, h, env);
      MarkedActed(old(m.Data()), m.Data(), h, Some(inv[h]), Mark, e);
      ok := e.None?;
    }
  }

  /** One host of the listing, seen as `d` when the run began. */
  method VisitListed(m: Mem, inv: Inventory, h: string, d: Option<Ref>, env: Env)
    returns (e: Option<TxError>, did: bool, ok: bool)
    requires ValidInventory(inv) && h in inv && inv[h].listed
    requires Ready(m.Data(), m.next, inv[h].report, env.p) && env.again.conflictWindow >= 0
    modifies m
    ensures m.enabled == old(m.enabled) && Sane(m.Data(), m.next)
          && (e.Some? ==> !ok && (m.enabled ==> env.fault.Some?))
    ensures Visited(old(m.Data()), m.Data(), inv, d, h, did, ok)
  {
    if inv[h].retired {
      e, did, ok := VisitRetired(m, inv, h, d, env);
      return;
    }
    e, did, ok := None, false, true;
    if d.Some? && d.value.state == Reported && inv[h].report.digest != "" && d.value.digest == inv[h].report.digest {
      return;
    }
    did := true;
    e, ok := Handle(m, inv[h], env);
  }

  /** One linked device whose host the listing did not mention. */
  method VisitMissing(m: Mem, inv: Inventory, h: string, d: Ref, env: Env)
    returns (e: Option<TxError>, did: bool, ok: bool)
    requires ValidInventory(inv) && (h in inv ==> !inv[h].listed)
    requires Sane(m.Data(), m.next) && env.p.conflictWindow >= 0 && env.again.conflictWindow >= 0
    modifies m
    ensures m.enabled == old(m.enabled) && Sane(m.Data(), m.next)
          && (e.Some? ==> !ok && (m.enabled ==> env.fault.Some?))
    ensures Visited(old(m.Data()), m.Data(), inv, Some(d), h, did, ok)
  {
    e, did, ok := None, false, true;
    if d.state == NotReported {
      return;
    }
    did := true;
    if h !in inv {
      e := MarkHostGone(m, h, env);
      MarkedActed(old(m.Data()), m.Data(), h, None, Mark, e);
      ok := e.None?;
    } else {
      e, ok := Handle(m, inv[h], env);
    }
  }

  // ---- the run

  /** Host `h` is as its action leaves it, or as before when it was not reached or failed. */
  ghost predicate HostOk(s0: Store, s: Store, inv: Inventory, done: set<string>, failed: set<string>, h: string) {
    var d, now := RefAt(s0.devices, h), RefAt(s.devices, h);
    now == After(d, Get(inv, h)) || (now == d && (h !in done || h in failed))
  }

  /** The hosts acted on are those visited that needed it. */
  ghost predicate ActedOn(s0: Store, inv: Inventory, done: set<string>, acted: set<string>) {
    forall h :: h in acted <==> h in done && ActionFor(RefAt(s0.devices, h), Get(inv, h)) != Leave
  }

  /** Where a run is after the hosts in `done`. */
  ghost predicate Progress(s0: Store, s: Store, inv: Inventory, done: set<string>, failed: set<string>,
                           acted: set<string>) {
    && AdminKept(s0, s) && (acted == {} ==> s == s0) && (forall h :: h in done ==> Folded(h))
    && (forall h :: Folded(h) ==> HostOk(s0, s, inv, done, failed, h))
    && ActedOn(s0, inv, done, acted)
  }

  lemma AdminTrans(a: Store, b: Store, c: Store)
    requires AdminKept(a, b) && AdminKept(b, c)
    ensures AdminKept(a, c)
  {}

  lemma HostStep(s0: Store, s: Store, t: Store, inv: Inventory, done: set<string>, failed: set<string>, h: string,
                 did: bool, ok: bool, g: string)
    requires HostOk(s0, s, inv, done, failed, g) && Folded(g) && Folded(h)
    requires Visited(s, t, inv, RefAt(s0.devices, h), h, did, ok)
    ensures HostOk(s0, t, inv, done + {h}, if ok then failed else failed + {h}, g)
  {}

  lemma ActedStep(s0: Store, inv: Inventory, done: set<string>, acted: set<string>, h: string, did: bool)
    requires ActedOn(s0, inv, done, acted) && (did <==> ActionFor(RefAt(s0.devices, h), Get(inv, h)) != Leave)
    ensures ActedOn(s0, inv, done + {h}, if did then acted + {h} else acted)
  {}

  lemma ProgressStep(s0: Store, s: Store, t: Store, inv: Inventory, done: set<string>, failed: set<string>,
                     acted: set<string>, h: string, did: bool, ok: bool)
    requires Progress(s0, s, inv, done, failed, acted) && Folded(h)
    requires Visited(s, t, inv, RefAt(s0.devices, h), h, did, ok)
    ensures Progress(s0, t, inv, done + {h}, if ok then failed else failed + {h}, if did then acted + {h} else acted)
  {
    AdminTrans(s0, s, t);
    ActedStep(s0, inv, done, acted, h, did);
    forall g | Folded(g) ensures HostOk(s0, t, inv, done + {h}, if ok then failed else failed + {h}, g) {
      HostStep(s0, s, t, inv, done, failed, h, did, ok, g);
    }
  }

  /** What deviceDigests tells about every host. */
  ghost predicate Digests(m: map<Id, Device>, digests: map<string, Ref>) {
    && (forall h :: h in digests ==> Folded(h))
    && (forall h :: Folded(h) ==> Get(digests, h) == RefAt(m, h))
  }

  /** runner.deviceDigests: the linked devices by folded host id. */
  method DeviceDigests(m: Mem) returns (digests: map<string, Ref>)
    requires WellFormed(m.Data())
    ensures Digests(m.devices, digests)
  {
    var devs := Collect(m.devices, (d: Device) => d.id, (d: Device) => d.cols.inventory != "");
    digests := map[];
    for k := 0 to |devs|
      invariant forall h :: h in digests ==> Folded(h) && RefAt(m.devices, h) == Some(digests[h])
      invariant forall j :: 0 <= j < k ==> Lower(devs[j].cols.inventory) in digests
    {
      var d := devs[k];
      assert d in devs;
      LowerTwice(d.cols.inventory);
      RefIs(m.devices, Lower(d.cols.inventory), d.id);
      digests := digests[Lower(d.cols.inventory) := RefOf(d)];
    }
    forall h | Folded(h) ensures Get(digests, h) == RefAt(m.devices, h) {
      if HasDevice(m.devices, h) {
        var i :| i in m.devices && LinkedTo(m.devices[i], h);
        assert m.devices[i] in devs;
      }
    }
  }

  /** The listing mentions exactly the listed hosts. */
  ghost predicate Listing(rows: seq<string>, inv: Inventory) {
    forall h :: h in rows <==> h in inv && inv[h].listed
  }

  /** The books of a run: hosts visited, hosts that failed, hosts acted on. */
  datatype Books = Books(done: set<string>, failed: set<string>, acted: set<string>)

  ghost predicate Booked(s0: Store, s: Store, inv: Inventory, b: Books) {
    Progress(s0, s, inv, b.done, b.failed, b.acted)
  }

  function Book(b: Books, h: string, did: bool, ok: bool): Books {
    Books(b.done + {h}, if ok then b.failed else b.failed + {h}, if did then b.acted + {h} else b.acted)
  }

  lemma BookStep(s0: Store, s: Store, t: Store, inv: Inventory, b: Books, h: string, did: bool, ok: bool)
    requires Booked(s0, s, inv, b) && Folded(h) && Visited(s, t, inv, RefAt(s0.devices, h), h, did, ok)
    ensures Booked(s0, t, inv, Book(b, h, did, ok))
  {
    ProgressStep(s0, s, t, inv, b.done, b.failed, b.acted, h, did, ok);
  }

  /** A store that is fit for the next visit, with its books. */
  ghost predicate Running(s0: Store, s: Store, next: Id, inv: Inventory, b: Books) {
    Sane(s, next) && Booked(s0, s, inv, b)
  }

  method BookListed(m: Mem, inv: Inventory, h: string, d: Option<Ref>, env: Env, b0: Books, ghost s0: Store)
    returns (e: Option<TxError>, b: Books)
    requires ValidInventory(inv) && h in inv && inv[h].listed && Folded(h)
    requires env.p.conflictWindow >= 0 && env.again.conflictWindow >= 0
    requires Running(s0, m.Data(), m.next, inv, b0) && d == RefAt(s0.devices, h)
    modifies m
    ensures Running(s0, m.Data(), m.next, inv, b)
    ensures m.enabled == old(m.enabled) && (if e.None? then b.done == b0.done + {h} else b == b0)
    ensures e.Some? && m.enabled ==> env.fault.Some?
  {
    var did, ok;
    e, did, ok := VisitListed(m, inv, h, d, env);
    b := b0;
    if e.None? {
      BookStep(s0, old(m.Data()), m.Data(), inv, b0, h, did, ok);
      b := Book(b0, h, did, ok);
    }
  }

  /** A host of a linked device that the listing did not mention. */
  ghost predicate Unmentioned(inv: Inventory, rows: seq<string>, digests: map<string, Ref>, h: string) {
    Listing(rows, inv) && h in digests && h !in rows
  }

  method BookMissing(m: Mem, inv: Inventory, h: string, digests: map<string, Ref>, env: Env, b0: Books,
                     ghost s0: Store, ghost rows: seq<string>)
    returns (e: Option<TxError>, b: Books)
    requires ValidInventory(inv) && Unmentioned(inv, rows, digests, h) && Digests(s0.devices, digests)
    requires env.p.conflictWindow >= 0 && env.again.conflictWindow >= 0
    requires Running(s0, m.Data(), m.next, inv, b0)
    modifies m
    ensures Running(s0, m.Data(), m.next, inv, b)
    ensures m.enabled == old(m.enabled) && (if e.None? then b.done == b0.done + {h} else b == b0)
    ensures e.Some? && m.enabled ==> env.fault.Some?
  {
    assert Get(digests, h) == RefAt(s0.devices, h);
    var did, ok;
    e, did, ok := VisitMissing(m, inv, h, digests[h], env);
    b := b0;
    if e.None? {
      BookStep(s0, old(m.Data()), m.Data(), inv, b0, h, did, ok);
      b := Book(b0, h, did, ok);
    }
  }

  lemma PrefixMore<T>(q: seq<T>, k: nat)
    requires k < |q|
    ensures q[k] in q && forall x :: x in q[..k + 1] <==> x in q[..k] || x == q[k]
  {
    assert q[..k + 1] == q[..k] + [q[k]];
  }

  /** As long as there was no error, exactly these hosts were visited. */
  ghost predicate Through(e: Option<TxError>, done: set<string>, before: set<string>, hs: seq<string>, k: nat)
    requires k <= |hs|
  {
    e.None? ==> forall h :: h in done <==> h in before || h in hs[..k]
  }

  lemma ThroughMore(e: Option<TxError>, done: set<string>, done': set<string>, before: set<string>, hs: seq<string>,
                    k: nat)
    requires k < |hs| && Through(None, done, before, hs, k) && (e.None? ==> done' == done + {hs[k]})
    ensures Through(e, done', before, hs, k + 1)
  {
    PrefixMore(hs, k);
  }

  lemma ThroughAll(e: Option<TxError>, done: set<string>, before: set<string>, hs: seq<string>)
    requires Through(e, done, before, hs, |hs|)
    ensures e.None? ==> forall h :: h in done <==> h in before || h in hs
  {
    assert hs[..|hs|] == hs;
  }

  /** The hosts of the listing, in order; `digests` was read before the first visit. */
  method ReconcileListed(m: Mem, inv: Inventory, rows: seq<string>, digests: map<string, Ref>, env: nat -> Env,
                         b0: Books, ghost s0: Store)
    returns (e: Option<TxError>, b: Books)
    requires ValidInventory(inv) && Listing(rows, inv) && ValidEnv(env) && Digests(s0.devices, digests)
    requires Running(s0, m.Data(), m.next, inv, b0) && b0.done == {}
    modifies m
    ensures Running(s0, m.Data(), m.next, inv, b) && m.enabled == old(m.enabled)
    ensures e.Some? && m.enabled ==> Faulty(env)
    ensures e.None? ==> forall h :: h in b.done <==> h in b0.done || h in rows
  {
    e, b := None, b0;
    for k := 0 to |rows|
      invariant Running(s0, m.Data(), m.next, inv, b) && m.enabled == old(m.enabled)
      invariant Through(e, b.done, b0.done, rows, k) && (e.Some? && m.enabled ==> Faulty(env))
    {
      if e.None? {
        ghost var done := b.done;
        assert rows[k] in rows;
        e, b := BookListed(m, inv, rows[k], Get(digests, rows[k]), env(k), b, s0);
        ThroughMore(e, done, b.done, b0.done, rows, k);
      }
    }
    ThroughAll(e, b.done, b0.done, rows);
  }

  /** A set's elements in whatever order a map yields them. */
  method InAnyOrder(todo: set<string>) returns (hs: seq<string>)
    ensures forall h :: h in hs <==> h in todo
  {
    hs := [];
    var rest := todo;
    while rest != {}
      invariant rest <= todo && forall h :: h in hs <==> h in todo && h !in rest
      decreases rest
    {
      var h :| h in rest;
      hs, rest := hs + [h], rest - {h};
    }
  }

  /** The linked devices the listing did not mention. */
  method ReconcileMissing(m: Mem, inv: Inventory, digests: map<string, Ref>, hs: seq<string>,
                          env: nat -> Env, b0: Books,
                          ghost s0: Store, ghost rows: seq<string>)
    returns (e: Option<TxError>, b: Books)
    requires ValidInventory(inv) && ValidEnv(env) && Digests(s0.devices, digests)
    requires Running(s0, m.Data(), m.next, inv, b0)
    requires forall h :: h in hs ==> Unmentioned(inv, rows, digests, h)
    modifies m
    ensures Running(s0, m.Data(), m.next, inv, b) && m.enabled == old(m.enabled)
    ensures e.Some? && m.enabled ==> Faulty(env)
    ensures e.None? ==> forall h :: h in b.done <==> h in b0.done || h in hs
  {
    e, b := None, b0;
    for k := 0 to |hs|
      invariant Running(s0, m.Data(), m.next, inv, b) && m.enabled == old(m.enabled)
      invariant Through(e, b.done, b0.done, hs, k) && (e.Some? && m.enabled ==> Faulty(env))
    {
      if e.None? {
        ghost var done := b.done;
        assert hs[k] in hs;
        e, b := BookMissing(m, inv, hs[k], digests, env(k), b, s0, rows);
        ThroughMore(e, done, b.done, b0.done, hs, k);
      }
    }
    ThroughAll(e, b.done, b0.done, hs);
  }

  /**
   A run that went through: every host that did not fail is as its action leaves it, and exactly
   those that needed it were acted on.
   */
  ghost predicate Complete(s0: Store, t: Store, inv: Inventory, b: Books) {
    && (forall h :: Folded(h) && h !in b.failed ==> RefAt(t.devices, h) == After(RefAt(s0.devices, h), Get(inv, h)))
    && (forall h :: Folded(h) ==> (h in b.acted <==> ActionFor(RefAt(s0.devices, h), Get(inv, h)) != Leave))
  }

  /** An error-free run without failures. */
  ghost predicate Reconciled(s0: Store, t: Store, inv: Inventory) {
    forall h :: Folded(h) ==> RefAt(t.devices, h) == After(RefAt(s0.devices, h), Get(inv, h))
  }

  lemma RunComplete(s0: Store, t: Store, inv: Inventory, b: Books, rows: seq<string>, digests: map<string, Ref>)
    requires Booked(s0, t, inv, b) && Listing(rows, inv) && Digests(s0.devices, digests)
    requires forall h :: h in rows || h in digests ==> h in b.done
    ensures Complete(s0, t, inv, b) && (b.failed == {} ==> Reconciled(s0, t, inv))
  {
    forall h | Folded(h) && h !in b.done ensures ActionFor(RefAt(s0.devices, h), Get(inv, h)) == Leave {
      assert Get(digests, h) == None && Get(digests, h) == RefAt(s0.devices, h);
    }
    forall h | Folded(h) && h !in b.failed ensures RefAt(t.devices, h) == After(RefAt(s0.devices, h), Get(inv, h)) {
      assert HostOk(s0, t, inv, b.done, b.failed, h);
    }
  }

  lemma RunStarts(s: Store, next: Id, inv: Inventory)
    requires Sane(s, next)
    ensures Running(s, s, next, inv, Books({}, {}, {}))
  {}

  /** reconcile: the digests once, then the listing, then the linked devices it did not mention. */
  method Reconcile(m: Mem, inv: Inventory, rows: seq<string>, env: nat -> Env, env': nat -> Env)
    returns (e: Option<TxError>, b: Books)
    requires Sane(m.Data(), m.next) && ValidInventory(inv) && Listing(rows, inv) && ValidEnv(env) && ValidEnv(env')
    modifies m
    ensures m.enabled == old(m.enabled) && Running(old(m.Data()), m.Data(), m.next, inv, b)
    ensures e.None? ==> Complete(old(m.Data()), m.Data(), inv, b)
    ensures e.None? && b.failed == {} ==> Reconciled(old(m.Data()), m.Data(), inv)
    ensures e.Some? && m.enabled ==> Faulty(env) || Faulty(env')
  {
    ghost var s0 := m.Data();
    var digests := DeviceDigests(m);
    RunStarts(s0, m.next, inv);
    e, b := ReconcileListed(m, inv, rows, digests, env, Books({}, {}, {}), s0);
    if e.None? {
      var hs := InAnyOrder(digests.Keys - b.done);
      e, b := ReconcileMissing(m, inv, digests, hs, env', b, s0, rows);
      if e.None? { RunComplete(s0, m.Data(), inv, b, rows, digests); }
    }
  }

  // ---- convergence

  /** Reported with inventory's digest if the host exists and is not retired, otherwise not reported. */
  ghost predicate Converged(d: Device, inv: Inventory) {
    var h := Lower(d.cols.inventory);
    if h in inv && !inv[h].retired then d.cols.state == Reported && d.cols.digest == inv[h].report.digest
    else d.cols.state == NotReported
  }

  /** A live host that inventory does not list, whose device had been given up before. */
  ghost predicate Overlooked(s0: Store, h: string, inv: Inventory) {
    && h in inv && !inv[h].retired && !inv[h].listed
    && RefAt(s0.devices, h).Some? && RefAt(s0.devices, h).value.state == NotReported
  }

  /** After a run a linked device is as inventory says if and only if its host was not overlooked. */
  lemma ReconcileConverges(s0: Store, t: Store, inv: Inventory, i: Id)
    requires UniqueHosts(t.devices) && Reconciled(s0, t, inv) && i in t.devices && t.devices[i].cols.inventory != ""
    ensures Converged(t.devices[i], inv) <==> !Overlooked(s0, Lower(t.devices[i].cols.inventory), inv)
  {
    var h := Lower(t.devices[i].cols.inventory);
    LowerTwice(t.devices[i].cols.inventory);
    RefIs(t.devices, h, i);
    assert RefAt(t.devices, h) == After(RefAt(s0.devices, h), Get(inv, h));
  }

  /** A live host a second run would fetch again: listed without a digest, or unlisted with a device in use. */
  ghost predicate FetchedAgain(s0: Store, h: string, inv: Inventory) {
    h in inv && !inv[h].retired &&
    if inv[h].listed then inv[h].report.digest == ""
    else RefAt(s0.devices, h).Some? && RefAt(s0.devices, h).value.state != NotReported
  }

  /** An immediate second run leaves a host alone if and only if it is not one of those. */
  lemma SecondDoesNothing(s0: Store, t: Store, inv: Inventory, h: string)
    requires Reconciled(s0, t, inv) && Folded(h)
    ensures ActionFor(RefAt(t.devices, h), Get(inv, h)) == Leave <==> !FetchedAgain(s0, h, inv)
  {
    assert RefAt(t.devices, h) == After(RefAt(s0.devices, h), Get(inv, h));
  }

  /** With a complete listing and digests, every linked device converges and a second run acts on nothing. */
  lemma CompleteListingSettles(s0: Store, t: Store, inv: Inventory)
    requires UniqueHosts(t.devices) && Reconciled(s0, t, inv)
    requires forall h :: h in inv ==> inv[h].listed && inv[h].report.digest != ""
    ensures forall i :: i in t.devices && t.devices[i].cols.inventory != "" ==> Converged(t.devices[i], inv)
    ensures forall h :: Folded(h) ==> ActionFor(RefAt(t.devices, h), Get(inv, h)) == Leave
  {
    forall i | i in t.devices && t.devices[i].cols.inventory != "" ensures Converged(t.devices[i], inv) {
      ReconcileConverges(s0, t, inv, i);
    }
    forall h | Folded(h) ensures ActionFor(RefAt(t.devices, h), Get(inv, h)) == Leave {
      SecondDoesNothing(s0, t, inv, h);
    }
  }

  /** A second run that goes through after such a first one leaves the whole store as it was. */
  lemma SecondRunIdle(s0: Store, s1: Store, s2: Store, inv: Inventory, b: Books)
    requires UniqueHosts(s1.devices) && Reconciled(s0, s1, inv)
    requires forall h :: Folded(h) ==> !FetchedAgain(s0, h, inv)
    requires Booked(s1, s2, inv, b)
    ensures b.acted == {} && s2 == s1
  {
    forall h ensures h !in b.acted {
      if Folded(h) { SecondDoesNothing(s0, s1, inv, h); }
    }
  }
}
