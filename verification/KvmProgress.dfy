/**
 Progress of the KVM session manager: no thread waits for ever, and without new work and new time
 every run ends, with no thread left.
 */
module KvmProgress {
  import opened Wrappers
  import opened Kvm
  import opened KvmProtocol
  import opened KvmCounts
  import opened KvmSafety
  import opened KvmSteps
  import opened KvmRuns
  import MapCount

  // ---- the work left

  /** How many steps of its own a thread has left at most, apart from what it may hand on. */
  function Rank(pc: Pc): nat {
    match pc
    case StartWait(_, _, _, _) => 13
    case StartHold(_, _, _, _) => 12
    case AuthWait(_, _) => 8
    case AuthHold(_, _) => 7
    case CredsWait(_, _) => 6
    case CredsHold(_, _) => 5
    case Login(_, _, _) => 4
    case InstallWait(_, _, _) => 2
    case InstallHold(_, _, _) => 1
    case ReleaseWait(_) => 2
    case ReleaseHold(_) => 1
    case ExchangeWait(_, _) => 10
    case ExchangeHold(_, _) => 9
    case ConsoleWait(_, _) => 10
    case ConsoleHold(_, _) => 9
    case Proxying(_, _) => 3
    case InvalidateWait(_, _) => 2
    case InvalidateHold(_, _) => 1
    case GcWait => 2
    case GcHold => 1
    case RetireWait(_) => 3
    case RetireHold(_) => 2
    case Logout(_) => 1
  }

  const RETIRE_WORK := 3
  const BLAME_WORK := 9

  /** Sessions that may still be retired. */
  ghost function Load(m: Mgr): nat {
    |m.sessions| + |m.dead|
  }

  /** A login old enough to be blamed for a 401. */
  function OldLogin(now: int): Session -> bool {
    (o: Session) => o.auth.Some? && now - o.loggedAt >= RELOGIN_AFTER
  }

  ghost function OldLogins(m: Mgr, now: int): nat {
    MapCount.Count(m.objs, OldLogin(now))
  }

  ghost function Work(st: State): nat {
    MapCount.Sum(st.threads, Rank) + RETIRE_WORK * Load(st.mgr) + BLAME_WORK * OldLogins(st.mgr, st.now)
  }

  // ---- the manager's data

  /** A session that has holders is registered, so giving one up moves it at most to the dead. */
  lemma ReleaseLoad(m: Mgr, s: SessId)
    requires s in m.objs && m.objs[s].refs > 0 && m.objs[s].key in m.sessions && m.sessions[m.objs[s].key] == s
    ensures Load(Release(m, s)) == Load(m)
  {
    MapCount.OutShrinks(m.sessions, m.objs[s].key);
  }

  lemma SameOld(objs: map<SessId, Session>, s: SessId, o: Session, now: int)
    requires s in objs && (OldLogin(now)(o) ==> OldLogin(now)(objs[s]))
    ensures MapCount.Count(objs[s := o], OldLogin(now)) <= MapCount.Count(objs, OldLogin(now))
  {
    MapCount.CountMove(objs, s, o, OldLogin(now));
  }

  lemma ReleaseOld(m: Mgr, s: SessId, now: int)
    requires s in m.objs
    ensures OldLogins(Release(m, s), now) <= OldLogins(m, now)
  {
    SameOld(m.objs, s, m.objs[s].(refs := m.objs[s].refs - 1), now);
  }

  /** One expired entry leaves the load as it is. */
  lemma ExpireLoad(st: State, x: Expiry)
    requires Sessions(st) && EntriesKnown(st.mgr) && x.id in Table(st.mgr, x.console)
    ensures var m := Expire(st.mgr, x); Load(m) == Load(st.mgr) && OldLogins(m, st.now) <= OldLogins(st.mgr, st.now)
    ensures Sessions(st.(mgr := Expire(st.mgr, x))) && EntriesKnown(Expire(st.mgr, x))
  {
    var s := Table(st.mgr, x.console)[x.id].sess;
    assert SessOk(st, s);
    OnOut(Table(st.mgr, x.console), x.id, s);
    ReleaseLoad(Drop(st.mgr, x), s);
    ReleaseOld(Drop(st.mgr, x), s, st.now);
    ExpireShorter(st.mgr, x);
    ExpiredSessions(st, x);
  }

  lemma ExpiredSessions(st: State, x: Expiry)
    requires Sessions(st) && EntriesKnown(st.mgr) && x.id in Table(st.mgr, x.console)
    ensures Sessions(st.(mgr := Expire(st.mgr, x)))
  {
    var st' := st.(mgr := Expire(st.mgr, x));
    forall s | s in st'.mgr.objs ensures SessOk(st', s) {
      assert SessOk(st, s);
      ExpireAccounted(st.mgr, x, s, Count(st.threads, TStart(s)), Count(st.threads, TRetire(s)));
    }
  }

  lemma {:induction false} SweptLoad(st: State, order: seq<Expiry>)
    requires Sessions(st) && EntriesKnown(st.mgr) && Sweeps(st.mgr, order, st.now)
    ensures var m := Swept(st.mgr, order, st.now);
            Load(m) == Load(st.mgr) && OldLogins(m, st.now) <= OldLogins(st.mgr, st.now)
    decreases |order|
  {
    if order != [] {
      ExpireLoad(st, order[0]);
      SweptLoad(st.(mgr := Expire(st.mgr, order[0])), order[1..]);
    }
  }

  /** The background logouts are exactly the load handed over to threads. */
  lemma {:induction false} RetireWork(st: State)
    requires forall t :: t in st.threads ==> t < st.nextTid
    ensures Work(Retire(st)) == Work(st)
    decreases |st.mgr.dead|
  {
    if st.mgr.dead != [] {
      HandOver(st);
      RetireWork(Spawn(st, RetireWait(st.mgr.dead[0])).(mgr := st.mgr.(dead := st.mgr.dead[1..])));
    }
  }

  lemma HandOver(st: State)
    requires st.nextTid !in st.threads && st.mgr.dead != []
    ensures Work(Spawn(st, RetireWait(st.mgr.dead[0])).(mgr := st.mgr.(dead := st.mgr.dead[1..]))) == Work(st)
  {
    MapCount.SumNew(st.threads, st.nextTid, RetireWait(st.mgr.dead[0]), Rank);
  }

  // ---- every step does some of it

  predicate Quiet(step: Step) {
    !Arrives(step) && !step.Tick?
  }

  lemma MoveWork(st: State, st': State, t: Tid, pc: Pc)
    requires t in st.threads && st'.threads == st.threads[t := pc] && st'.now == st.now
    requires Rank(pc) < Rank(st.threads[t])
    requires Load(st'.mgr) <= Load(st.mgr) && OldLogins(st'.mgr, st.now) <= OldLogins(st.mgr, st.now)
    ensures Work(st') < Work(st)
  {
    MapCount.SumMove(st.threads, t, pc, Rank);
  }

  lemma EndWork(st: State, st': State, t: Tid)
    requires t in st.threads && st'.threads == st.threads - {t} && st'.now == st.now
    requires Load(st'.mgr) <= Load(st.mgr) && OldLogins(st'.mgr, st.now) <= OldLogins(st.mgr, st.now)
    ensures Work(st') < Work(st)
  {
    MapCount.SumOut(st.threads, t, Rank);
  }

  lemma StartWork(st: State, st': State, t: Tid)
    requires t in st.threads && st.threads[t].StartHold? && st.mgr.nextSess !in st.mgr.objs && st'.now == st.now
    requires var key := st.threads[t].key; key in st.mgr.sessions ==> st.mgr.sessions[key] in st.mgr.objs
    requires var pc := st.threads[t];
             && st'.threads == st.threads[t := AuthWait(Acquired(st.mgr, pc.key), ForStart(pc.device, pc.token))]
             && st'.mgr == Acquire(st.mgr, pc.key, pc.password)
    ensures Work(st') < Work(st)
  {
    var pc, m, m' := st.threads[t], st.mgr, st'.mgr;
    var s := Acquired(m, pc.key);
    MapCount.SumMove(st.threads, t, st'.threads[t], Rank);
    if pc.key in m.sessions {
      SameOld(m.objs, s, m'.objs[s], st.now);
    } else {
      MapCount.CountMove(m.objs, s, m'.objs[s], OldLogin(st.now));
      NewKey(m.sessions, pc.key, s);
    }
  }

  lemma NewKey(m: map<Key, SessId>, k: Key, s: SessId)
    requires k !in m
    ensures |m[k := s]| == |m| + 1
  {
    MapCount.OutShrinks(m[k := s], k);
    assert m[k := s] - {k} == m;
  }

  /** The thread ends, or goes on with less to do. */
  predicate Leaves(st: State, st': State, t: Tid) {
    && t in st.threads && st'.now == st.now && st'.nextTid == st.nextTid
    && (st'.threads == st.threads - {t}
        || (t in st'.threads && st'.threads == st.threads[t := st'.threads[t]]
            && Rank(st'.threads[t]) < Rank(st.threads[t])))
  }

  lemma LeaveWork(st: State, st': State, t: Tid)
    requires Leaves(st, st', t)
    requires Load(st'.mgr) <= Load(st.mgr) && OldLogins(st'.mgr, st.now) <= OldLogins(st.mgr, st.now)
    ensures Work(st') < Work(st)
  {
    if st'.threads == st.threads - {t} { EndWork(st, st', t); } else { MoveWork(st, st', t, st'.threads[t]); }
  }

  lemma LeaveKeeps(st: State, st': State, t: Tid)
    requires Leaves(st, st', t) && forall u :: u in st.threads ==> u < st.nextTid
    ensures forall u :: u in st'.threads ==> u < st'.nextTid
  {
    if st'.threads != st.threads - {t} { assert st'.threads.Keys == st.threads.Keys; }
  }

  /** Leaving the manager lock with the dead sessions handed over. */
  lemma RetiredWork(st: State, st': State, t: Tid)
    requires Leaves(st, st', t) && forall u :: u in st.threads ==> u < st.nextTid
    requires Load(st'.mgr) <= Load(st.mgr) && OldLogins(st'.mgr, st.now) <= OldLogins(st.mgr, st.now)
    ensures Work(Retire(st')) < Work(st)
  {
    LeaveWork(st, st', t);
    LeaveKeeps(st, st', t);
    RetireWork(st');
  }

  /** The same after a sweep. */
  lemma SweepWork(st: State, st1: State, t: Tid, order: seq<Expiry>)
    requires Leaves(st, st1, t) && forall u :: u in st.threads ==> u < st.nextTid
    requires Sessions(st1) && EntriesKnown(st1.mgr) && Sweeps(st1.mgr, order, st1.now)
    requires Load(st1.mgr) == Load(st.mgr) && st1.mgr.objs == st.mgr.objs
    ensures Work(Retire(st1.(mgr := Swept(st1.mgr, order, st1.now)))) < Work(st)
  {
    SweptLoad(st1, order);
    RetiredWork(st, st1.(mgr := Swept(st1.mgr, order, st1.now)), t);
  }

  lemma InstallWork(st: State, t: Tid, order: seq<Expiry>)
    requires Inv(st) && t in st.threads && st.threads[t].InstallHold?
    requires EntriesKnown(Installed(st, st.threads[t])) && Sweeps(Installed(st, st.threads[t]), order, st.now)
    ensures Work(Retire(End(st, t).(mgr := Swept(Installed(st, st.threads[t]), order, st.now)))) < Work(st)
  {
    var st1 := End(st, t).(mgr := Installed(st, st.threads[t]));
    InstalledTokens(st, st1, t);
    InstalledSessions(st, st1, t);
    SweepWork(st, st1, t, order);
  }

  lemma GcWork(st: State, t: Tid, order: seq<Expiry>)
    requires Inv(st) && t in st.threads && st.threads[t].GcHold? && Sweeps(st.mgr, order, st.now)
    ensures Work(Retire(End(st, t).(mgr := Swept(st.mgr, order, st.now)))) < Work(st)
  {
    var st1 := End(st, t);
    ClosedBlank(st);
    SessionsKept(st, st1, t);
    SweepWork(st, st1, t, order);
  }

  /** A start that gives up its session. */
  lemma ReleaseWork(st: State, t: Tid)
    requires t in st.threads && st.threads[t].ReleaseHold?
    requires st.threads[t].s in st.mgr.objs && SessOk(st, st.threads[t].s)
    requires forall u :: u in st.threads ==> u < st.nextTid
    ensures Work(Retire(End(st, t).(mgr := Release(st.mgr, st.threads[t].s)))) < Work(st)
  {
    var s := st.threads[t].s;
    CountOut(st.threads, t, TStart(s));
    ReleaseLoad(st.mgr, s);
    ReleaseOld(st.mgr, s, st.now);
    RetiredWork(st, End(st, t).(mgr := Release(st.mgr, s)), t);
  }

  lemma RefusedWork(st: State, t: Tid)
    requires t in st.threads && forall u :: u in st.threads ==> u < st.nextTid
    ensures Work(Retire(End(st, t))) < Work(st)
  {
    RetiredWork(st, End(st, t), t);
  }

  lemma ExchangeWork(st: State, t: Tid, order: seq<Expiry>)
    requires Inv(st) && t in st.threads && st.threads[t].ExchangeHold? && st.threads[t].token in st.mgr.tokens
    requires EntriesKnown(Exchanged(st, st.threads[t].token))
          && Sweeps(Exchanged(st, st.threads[t].token), order, st.now)
    ensures Work(Retire(Redeemed(st, t).(mgr := Swept(Exchanged(st, st.threads[t].token), order, st.now)))) < Work(st)
  {
    RedeemedCounted(st, t);
    SweepWork(st, Redeemed(st, t), t, order);
  }

  lemma SpawnWork(st: State, pc: Pc)
    requires st.nextTid !in st.threads
    ensures Work(Spawn(st, pc)) == Work(st) + Rank(pc)
  {
    MapCount.SumNew(st.threads, st.nextTid, pc, Rank);
  }

  lemma SpawnLess(st: State, st1: State, pc: Pc)
    requires st1.nextTid !in st1.threads && Work(st1) + Rank(pc) < Work(st)
    ensures Work(Spawn(st1, pc)) < Work(st)
  {
    SpawnWork(st1, pc);
  }

  lemma ForgetOld(objs: map<SessId, Session>, s: SessId, now: int)
    requires s in objs && OldLogin(now)(objs[s])
    ensures MapCount.Count(objs[s := objs[s].(auth := None)], OldLogin(now)) == MapCount.Count(objs, OldLogin(now)) - 1
  {
    MapCount.CountMove(objs, s, objs[s].(auth := None), OldLogin(now));
  }

  lemma RetryRank(th: map<Tid, Pc>, t: Tid, retry: bool, s: SessId)
    requires t in th && th[t].InvalidateHold?
    ensures var th' := if retry then th[t := AuthWait(s, ForRequest)] else th - {t};
            MapCount.Sum(th', Rank) <= MapCount.Sum(th, Rank) + 7
  {
    if retry {
      MapCount.SumMove(th, t, AuthWait(s, ForRequest), Rank);
    } else {
      MapCount.SumOut(th, t, Rank);
    }
  }

  /** A blamed login is gone for good: it pays for the retry and the background logout. */
  lemma BlameWork(st: State, t: Tid, retry: bool)
    requires t in st.threads && st.threads[t].InvalidateHold?
    requires st.threads[t].s in st.mgr.objs && st.nextTid !in st.threads
    requires Blames(st, st.threads[t].s, st.threads[t].a)
    ensures Work(Spawn(Dropped(st, t, retry), Logout(st.threads[t].a))) < Work(st)
  {
    DroppedWork(st, t, retry);
    SpawnLess(st, Dropped(st, t, retry), Logout(st.threads[t].a));
  }

  lemma DroppedWork(st: State, t: Tid, retry: bool)
    requires t in st.threads && st.threads[t].InvalidateHold? && st.threads[t].s in st.mgr.objs
    requires Blames(st, st.threads[t].s, st.threads[t].a)
    ensures Work(Dropped(st, t, retry)) + 2 <= Work(st)
  {
    ForgetOld(st.mgr.objs, st.threads[t].s, st.now);
    RetryRank(st.threads, t, retry, st.threads[t].s);
  }

  lemma CloseWork(st: State, t: Tid)
    requires t in st.threads && st.threads[t].RetireHold? && st.threads[t].s in st.mgr.objs
    ensures Work(Closed(st, t)) < Work(st)
  {
    var s := st.threads[t].s;
    SameOld(st.mgr.objs, s, Closed(st, t).mgr.objs[s], st.now);
    LeaveWork(st, Closed(st, t), t);
  }

  /** The session with the credential of a login that has just succeeded. */
  function LoggedIn(st: State, s: SessId): Mgr
    requires s in st.mgr.objs
  {
    st.mgr.(objs := st.mgr.objs[s := st.mgr.objs[s].(auth := Some(st.nextCred), loggedAt := st.now)])
  }

  lemma LoginWork(st: State, st': State, t: Tid)
    requires Inv(st) && t in st.threads && st.threads[t].Login? && Leaves(st, st', t)
    requires st'.mgr == LoggedIn(st, st.threads[t].s)
    ensures Work(st') < Work(st)
  {
    var s := st.threads[t].s;
    SameOld(st.mgr.objs, s, st'.mgr.objs[s], st.now);
    LeaveWork(st, st', t);
  }

  // ---- dispatch

  lemma MgrBodyWork(st: State, step: Step)
    requires Inv(st) && Enabled(st, step) && InMgr(step)
    ensures Work(Apply(st, step)) < Work(st)
  {
    match step
    case StartBody(t) => StartWork(st, Apply(st, step), t);
    case InstallBody(t, order) => InstallWork(st, t, order);
    case ReleaseBody(t) =>
      assert SessOk(st, st.threads[t].s);
      ReleaseWork(st, t);
    case ConsoleBody(t) => LeaveWork(st, Apply(st, step), t);
    case GcBody(t, order) => GcWork(st, t, order);
  }

  lemma ExchangeBodyWork(st: State, t: Tid, randFails: bool, order: seq<Expiry>)
    requires Inv(st) && Enabled(st, ExchangeBody(t, randFails, order))
    ensures Work(Apply(st, ExchangeBody(t, randFails, order))) < Work(st)
  {
    if !Exchanges(st, st.threads[t].token, st.threads[t].device) || randFails {
      RefusedWork(st, t);
    } else {
      ExchangeWork(st, t, order);
    }
  }

  /** The thread leaves and the manager's data stay as they are. */
  predicate JustLeaves(st: State, st': State, t: Tid) {
    Leaves(st, st', t) && st'.mgr == st.mgr
  }

  lemma JustLeavesWork(st: State, st': State, t: Tid)
    requires JustLeaves(st, st', t)
    ensures Work(st') < Work(st)
  {
    LeaveWork(st, st', t);
  }

  lemma ContinueLeaves(st: State, t: Tid, s: SessId, k: Cont, a: Option<Cred>)
    requires t in st.threads && Rank(st.threads[t]) >= 4
    ensures JustLeaves(st, Continue(UnlockSess(st, s), t, s, k, a), t)
  {}

  lemma AuthLeaves(st: State, t: Tid)
    requires Inv(st) && t in st.threads && st.threads[t].AuthHold?
    ensures JustLeaves(st, Apply(st, AuthBody(t)), t)
  {
    var pc := st.threads[t];
    ContinueLeaves(st, t, pc.s, pc.k, None);
    ContinueLeaves(st, t, pc.s, pc.k, st.mgr.objs[pc.s].auth);
  }

  lemma FailLeaves(st: State, t: Tid)
    requires Inv(st) && t in st.threads && st.threads[t].Login?
    ensures JustLeaves(st, Apply(st, LoginFail(t)), t)
  {
    ContinueLeaves(st, t, st.threads[t].s, st.threads[t].k, None);
  }

  lemma ProxyLeaves(st: State, step: Step)
    requires Inv(st) && Enabled(st, step) && (step.ProxyEnds? || step.ProxyRefused?)
    ensures JustLeaves(st, Apply(st, step), step.t)
  {}

  lemma CredsLeave(st: State, t: Tid)
    requires Inv(st) && t in st.threads && st.threads[t].CredsHold?
    ensures JustLeaves(st, Apply(st, CredsBody(t)), t)
  {}

  lemma LogoutLeaves(st: State, t: Tid)
    requires Inv(st) && t in st.threads && st.threads[t].Logout?
    ensures JustLeaves(st, Apply(st, LogoutDone(t)), t)
  {}

  lemma InvalidateIs(st: State, t: Tid, retry: bool)
    requires Inv(st) && t in st.threads && st.threads[t].InvalidateHold?
    ensures Apply(st, InvalidateBody(t, retry))
              == if Blames(st, st.threads[t].s, st.threads[t].a)
                 then Spawn(Dropped(st, t, retry), Logout(st.threads[t].a))
                 else End(UnlockSess(st, st.threads[t].s), t)
  {}

  lemma InvalidateWork(st: State, t: Tid, retry: bool)
    requires Inv(st) && t in st.threads && st.threads[t].InvalidateHold?
    ensures Work(Apply(st, InvalidateBody(t, retry))) < Work(st)
  {
    InvalidateIs(st, t, retry);
    if Blames(st, st.threads[t].s, st.threads[t].a) {
      BlameWork(st, t, retry);
    } else {
      JustLeavesWork(st, End(UnlockSess(st, st.threads[t].s), t), t);
    }
  }

  lemma LoginIs(st: State, t: Tid)
    requires Inv(st) && t in st.threads && st.threads[t].Login?
    ensures var st' := Apply(st, LoginOk(t));
            Leaves(st, st', t) && st'.mgr == LoggedIn(st, st.threads[t].s)
  {
    ContinueLeaves(st, t, st.threads[t].s, st.threads[t].k, Some(st.nextCred));
  }

  lemma RetireIs(st: State, t: Tid)
    requires Inv(st) && t in st.threads && st.threads[t].RetireHold?
    ensures Apply(st, RetireBody(t)) == Closed(st, t)
  {}

  lemma SessBodyWork(st: State, step: Step)
    requires Inv(st) && Enabled(st, step) && Quiet(step) && !InMgr(step) && !TakesLock(step) && !step.ExchangeBody?
    ensures Work(Apply(st, step)) < Work(st)
  {
    if step.LoginOk? {
      LoginIs(st, step.t);
      LoginWork(st, Apply(st, step), step.t);
    } else if step.InvalidateBody? {
      InvalidateWork(st, step.t, step.retry);
    } else if step.RetireBody? {
      RetireIs(st, step.t);
      CloseWork(st, step.t);
    } else {
      PlainLeaves(st, step);
      JustLeavesWork(st, Apply(st, step), step.t);
    }
  }

  lemma PlainLeaves(st: State, step: Step)
    requires Inv(st) && Enabled(st, step) && Quiet(step) && !InMgr(step) && !TakesLock(step) && !step.ExchangeBody?
    requires !step.LoginOk? && !step.InvalidateBody? && !step.RetireBody?
    ensures JustLeaves(st, Apply(st, step), step.t)
  {
    match step
    case AuthBody(t) => AuthLeaves(st, t);
    case CredsBody(t) => CredsLeave(st, t);
    case LoginFail(t) => FailLeaves(st, t);
    case ProxyEnds(_) => ProxyLeaves(st, step);
    case ProxyRefused(_) => ProxyLeaves(st, step);
    case LogoutDone(t) => LogoutLeaves(st, t);
  }

  /** Every step that is neither new work nor the clock leaves less to do. */
  lemma StepWork(st: State, step: Step)
    requires Inv(st) && Enabled(st, step) && Quiet(step)
    ensures Work(Apply(st, step)) < Work(st)
  {
    if TakesLock(step) {
      LeaveWork(st, Apply(st, step), step.t);
    } else if InMgr(step) {
      MgrBodyWork(st, step);
    } else if step.ExchangeBody? {
      ExchangeBodyWork(st, step.t, step.randFails, step.order);
    } else {
      SessBodyWork(st, step);
    }
  }

  // ---- no thread waits for ever

  /** A step of thread `t`. */
  predicate StepOf(step: Step, t: Tid) {
    Quiet(step) && step.t == t
  }

  /** The holder of the lock a thread waits for. */
  function Blocker(st: State, t: Tid): Option<Tid>
    requires t in st.threads
  {
    var pc := st.threads[t];
    if WantsMgr(pc) then st.mgrLock
    else if WantsSess(pc).Some? && WantsSess(pc).value in st.sessLock then Some(st.sessLock[WantsSess(pc).value])
    else None
  }

  /** A thread inside a critical section, waiting for its BMC or proxying can always go on. */
  lemma BodyEnabled(st: State, t: Tid) returns (step: Step)
    requires Inv(st) && t in st.threads && !WantsMgr(st.threads[t]) && WantsSess(st.threads[t]).None?
    ensures Enabled(st, step) && StepOf(step, t)
  {
    match st.threads[t]
    case StartHold(_, _, _, _) => step := StartBody(t);
    case AuthHold(_, _) => step := AuthBody(t);
    case CredsHold(_, _) => step := CredsBody(t);
    case Login(_, _, _) => step := LoginOk(t);
    case InstallHold(_, _, _) =>
      var order := SweepExists(Installed(st, st.threads[t]), st.now);
      step := InstallBody(t, order);
    case ReleaseHold(_) => step := ReleaseBody(t);
    case ExchangeHold(_, _) => step := ExchangeBody(t, true, []);
    case ConsoleHold(_, _) => step := ConsoleBody(t);
    case Proxying(_, _) => step := ProxyEnds(t);
    case InvalidateHold(_, _) => step := InvalidateBody(t, false);
    case GcHold =>
      var order := SweepExists(st.mgr, st.now);
      step := GcBody(t, order);
    case RetireHold(_) => step := RetireBody(t);
    case Logout(_) => step := LogoutDone(t);
  }

  lemma FreeEnabled(st: State, t: Tid) returns (step: Step)
    requires Inv(st) && t in st.threads && Blocker(st, t).None?
    ensures Enabled(st, step) && StepOf(step, t)
  {
    if WantsMgr(st.threads[t]) {
      step := LockMgr(t);
    } else if WantsSess(st.threads[t]).Some? {
      step := LockSess(t);
    } else {
      step := BodyEnabled(st, t);
    }
  }

  /** The chain of blockers of a thread has at most two links, and its end can go on. */
  lemma Unblocks(st: State, t: Tid) returns (u: Tid, step: Step)
    requires Inv(st) && t in st.threads
    ensures u in st.threads && Enabled(st, step) && StepOf(step, u)
    ensures Ahead(st, t, u)
  {
    u := t;
    if Blocker(st, t).Some? {
      BlockersEnd(st, t);
      u := Blocker(st, t).value;
      if Blocker(st, u).Some? { u := Blocker(st, u).value; }
    }
    step := FreeEnabled(st, u);
  }

  /** The manager lock is innermost: its holder waits for nothing, and a session lock's holder at most for it. */
  lemma BlockersEnd(st: State, t: Tid)
    requires MgrLocks(st) && SessLocks(st) && t in st.threads && Blocker(st, t).Some?
    ensures var b := Blocker(st, t).value;
            b in st.threads && (Blocker(st, b).Some? ==>
              Blocker(st, b).value in st.threads && Blocker(st, Blocker(st, b).value).None?)
  {}

  /** `u` is `t` when nobody blocks it, else its blocker when nobody blocks that, else the blocker's blocker. */
  predicate Ahead(st: State, t: Tid, u: Tid)
    requires t in st.threads
  {
    match Blocker(st, t)
    case None => u == t
    case Some(b) => b in st.threads && (match Blocker(st, b) case None => u == b case Some(c) => u == c)
  }

  /** No deadlock: in every reachable state every thread can go on, or the end of its chain of blockers can. */
  lemma NeverStuck(now: int, steps: seq<Step>, t: Tid) returns (u: Tid, step: Step)
    requires Possible(Initial(now), steps) && t in Run(Initial(now), steps).threads
    ensures var st := Run(Initial(now), steps);
            && Known(st) && Enabled(st, step) && StepOf(step, u) && Ahead(st, t, u)
  {
    RunInv(now, steps);
    u, step := Unblocks(Run(Initial(now), steps), t);
  }

  // ---- every run without new work ends

  predicate AllQuiet(steps: seq<Step>) {
    forall k :: 0 <= k < |steps| ==> Quiet(steps[k])
  }

  lemma {:induction false} QuietWork(st: State, steps: seq<Step>)
    requires Inv(st) && Possible(st, steps) && AllQuiet(steps)
    ensures |steps| + Work(Run(st, steps)) <= Work(st)
    decreases |steps|
  {
    if steps != [] {
      StepInv(st, steps[0]);
      StepWork(st, steps[0]);
      QuietWork(Apply(st, steps[0]), steps[1..]);
    }
  }

  /** From every reachable state, a run without new work and without new time is bounded by the work left. */
  lemma QuietRunsEnd(now: int, before: seq<Step>, steps: seq<Step>)
    requires Possible(Initial(now), before) && Possible(Run(Initial(now), before), steps) && AllQuiet(steps)
    ensures |steps| <= Work(Run(Initial(now), before))
  {
    RunInv(now, before);
    QuietWork(Run(Initial(now), before), steps);
  }

  /** A run that cannot go on without new work or time has no thread left. */
  lemma StuckIsDone(now: int, steps: seq<Step>)
    requires Possible(Initial(now), steps)
    requires var st := Run(Initial(now), steps); Known(st) ==> forall step :: Quiet(step) ==> !Enabled(st, step)
    ensures Run(Initial(now), steps).threads == map[]
  {
    var st := Run(Initial(now), steps);
    RunInv(now, steps);
    if t :| t in st.threads {
      var u, step := Unblocks(st, t);
    }
  }

  /** So the threads can always be drained: some continuation ends them all. */
  lemma {:induction false} Drains(st: State) returns (steps: seq<Step>)
    requires Inv(st)
    ensures Possible(st, steps) && AllQuiet(steps) && Run(st, steps).threads == map[]
    decreases Work(st)
  {
    steps := [];
    if t :| t in st.threads {
      var u, step := Unblocks(st, t);
      StepInv(st, step);
      StepWork(st, step);
      var rest := Drains(Apply(st, step));
      steps := [step] + rest;
      assert steps[1..] == rest;
    }
  }

  lemma RunsDrain(now: int, before: seq<Step>) returns (steps: seq<Step>)
    requires Possible(Initial(now), before)
    ensures var st := Run(Initial(now), before);
            Possible(st, steps) && AllQuiet(steps) && Run(st, steps).threads == map[]
  {
    RunInv(now, before);
    steps := Drains(Run(Initial(now), before));
  }
}
