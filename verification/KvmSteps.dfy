/** Every step of the KVM protocol keeps the invariant. */
module KvmSteps {
  import opened Wrappers
  import opened Kvm
  import opened KvmProtocol
  import opened KvmCounts
  import opened KvmSafety
  import opened KvmLocks

  // ---- arrivals and time

  lemma SpawnInv(st: State, st': State, pc: Pc)
    requires Inv(st) && st' == Spawn(st, pc).(nextToken := st'.nextToken) && st.nextToken <= st'.nextToken
    requires Named(pc).None? && !HoldsMgr(pc) && LogoutOf(pc).None?
    requires StartOf(pc).None? && RetireOf(pc).None? && HoldsSess(pc).None? && !Fetches(pc)
    requires CarryOf(pc).None? || (CarryOf(pc) == Some(st.nextToken) && st'.nextToken == st.nextToken + 1)
    ensures Inv(st')
  {
    var u := st.nextTid;
    assert u !in st.threads;
    assert Edited(st.threads, st'.threads, u);
    SameMgr(st, st', u);
    TokensKept(st, st', u);
    ShapedMgr(st);
    ShapedEdit(st, st', u);
    LocksEdit(st, st', u);
  }

  lemma SameMgr(st: State, st': State, t: Tid)
    requires Sessions(st) && Logins(st) && Edited(st.threads, st'.threads, t)
    requires st'.mgr == st.mgr && st'.nextCred == st.nextCred && st'.outs == st.outs
    requires StartAt(st'.threads, t) == StartAt(st.threads, t)
    requires RetireAt(st'.threads, t) == RetireAt(st.threads, t)
    requires LogoutAt(st'.threads, t) == LogoutAt(st.threads, t)
    ensures Sessions(st') && Logins(st')
  {
    ClosedBlank(st);
    SessionsKept(st, st', t);
    LoginsKept(st, st', t);
  }

  lemma ClosedBlank(st: State)
    requires Sessions(st)
    ensures forall s :: s in st.mgr.objs && st.mgr.objs[s].closed ==> st.mgr.objs[s].auth.None?
  {
    forall s | s in st.mgr.objs ensures st.mgr.objs[s].closed ==> st.mgr.objs[s].auth.None? { assert SessOk(st, s); }
  }

  lemma TickInv(st: State, d: nat)
    requires Inv(st)
    ensures Inv(st.(now := st.now + d))
  {
    var st' := st.(now := st.now + d);
    forall s | s in st'.mgr.objs ensures SessOk(st', s) { assert SessOk(st, s); }
    forall c: Cred ensures CredOk(st', c) { assert CredOk(st, c); }
    forall k: Token ensures TokenOk(st', k) { assert TokenOk(st, k); }
  }

  // ---- a thread moves without touching the manager's data

  /** Thread `t` goes on to `pc` (None = it ends) and accounts for the same things. */
  predicate Plain(st: State, st': State, t: Tid, pc: Option<Pc>) {
    && t in st.threads
    && st' == st.(threads := if pc.Some? then st.threads[t := pc.value] else st.threads - {t},
                  mgrLock := st'.mgrLock, sessLock := st'.sessLock)
    && StartOf(st.threads[t]) == (if pc.Some? then StartOf(pc.value) else None)
    && RetireOf(st.threads[t]) == (if pc.Some? then RetireOf(pc.value) else None)
    && LogoutOf(st.threads[t]) == (if pc.Some? then LogoutOf(pc.value) else None)
    && (if pc.Some? then CarryOf(pc.value) else None) in {None, CarryOf(st.threads[t])}
    && (pc.Some? && Named(pc.value).Some? ==> Named(pc.value).value in st.mgr.objs)
    && (pc.Some? && Fetches(pc.value) ==> Blank(st.mgr.objs, pc.value.s))
  }

  lemma PlainInv(st: State, st': State, t: Tid, pc: Option<Pc>)
    requires Inv(st) && Plain(st, st', t, pc)
    requires MgrMoves(st, st', t) && SessMoves(st, st', t)
    ensures Inv(st')
  {
    PlainCounted(st, st', t, pc);
    assert Edited(st.threads, st'.threads, t);
    ShapedMgr(st);
    ShapedEdit(st, st', t);
    LocksEdit(st, st', t);
  }

  lemma PlainCounted(st: State, st': State, t: Tid, pc: Option<Pc>)
    requires Counted(st) && Plain(st, st', t, pc)
    ensures Counted(st')
  {
    assert Edited(st.threads, st'.threads, t);
    SameMgr(st, st', t);
    TokensKept(st, st', t);
  }

  lemma LockMgrInv(st: State, t: Tid)
    requires Inv(st) && t in st.threads && WantsMgr(st.threads[t]) && st.mgrLock.None?
    ensures Inv(Goto(st, t, Entered(st.threads[t])).(mgrLock := Some(t)))
  {
    PlainInv(st, Goto(st, t, Entered(st.threads[t])).(mgrLock := Some(t)), t, Some(Entered(st.threads[t])));
  }

  lemma LockSessInv(st: State, t: Tid)
    requires Inv(st) && t in st.threads && WantsSess(st.threads[t]).Some?
          && WantsSess(st.threads[t]).value !in st.sessLock
    ensures Inv(Goto(st, t, Entered(st.threads[t])).(sessLock := st.sessLock[WantsSess(st.threads[t]).value := t]))
  {
    PlainInv(st, Goto(st, t, Entered(st.threads[t])).(sessLock := st.sessLock[WantsSess(st.threads[t]).value := t]),
             t, Some(Entered(st.threads[t])));
  }

  /** Where a thread goes after sessionAuth. */
  function After(s: SessId, k: Cont, a: Option<Cred>): Option<Pc> {
    match k
    case ForStart(d, tok) => Some(if a.Some? then InstallWait(d, tok, s) else ReleaseWait(s))
    case ForRequest => if a.Some? then Some(Proxying(s, a.value)) else None
  }

  lemma ContinuePlain(st: State, t: Tid, s: SessId, k: Cont, a: Option<Cred>)
    requires Inv(st) && t in st.threads && (st.threads[t] == AuthHold(s, k)
          || (st.threads[t].Login? && st.threads[t].s == s && st.threads[t].k == k))
    ensures Plain(st, Continue(UnlockSess(st, s), t, s, k, a), t, After(s, k, a))
  {}

  lemma ContinueInv(st: State, t: Tid, s: SessId, k: Cont, a: Option<Cred>)
    requires Inv(st) && t in st.threads && (st.threads[t] == AuthHold(s, k)
          || (st.threads[t].Login? && st.threads[t].s == s && st.threads[t].k == k))
    ensures Inv(Continue(UnlockSess(st, s), t, s, k, a))
  {
    ContinuePlain(st, t, s, k, a);
    PlainInv(st, Continue(UnlockSess(st, s), t, s, k, a), t, After(s, k, a));
  }

  lemma AuthInv(st: State, t: Tid)
    requires Inv(st) && t in st.threads && st.threads[t].AuthHold?
    ensures Enabled(st, AuthBody(t)) && Inv(Apply(st, AuthBody(t)))
  {
    var pc := st.threads[t];
    var o := st.mgr.objs[pc.s];
    if o.closed {
      ContinueInv(st, t, pc.s, pc.k, None);
    } else if o.auth.Some? {
      ContinueInv(st, t, pc.s, pc.k, o.auth);
    } else {
      PlainInv(st, Goto(st, t, CredsWait(pc.s, pc.k)), t, Some(CredsWait(pc.s, pc.k)));
    }
  }

  lemma CredsInv(st: State, t: Tid)
    requires Inv(st) && t in st.threads && st.threads[t].CredsHold?
    ensures Enabled(st, CredsBody(t)) && Inv(Apply(st, CredsBody(t)))
  {
    var pc := st.threads[t];
    var pc' := Login(pc.s, pc.k, st.mgr.objs[pc.s].password);
    PlainInv(st, Goto(st, t, pc').(mgrLock := None), t, Some(pc'));
  }

  lemma ConsoleInv(st: State, t: Tid, pc: Option<Pc>)
    requires Inv(st) && t in st.threads && st.threads[t].ConsoleHold?
    requires pc.Some? ==> pc.value.AuthWait? && pc.value.k.ForRequest? && pc.value.s in st.mgr.objs
    ensures Inv((if pc.Some? then Goto(st, t, pc.value) else End(st, t)).(mgrLock := None))
  {
    PlainInv(st, (if pc.Some? then Goto(st, t, pc.value) else End(st, t)).(mgrLock := None), t, pc);
  }

  lemma ProxyInv(st: State, t: Tid, refused: bool)
    requires Inv(st) && t in st.threads && st.threads[t].Proxying?
    ensures Inv(if refused then Goto(st, t, InvalidateWait(st.threads[t].s, st.threads[t].a)) else End(st, t))
  {
    if refused {
      PlainInv(st, Goto(st, t, InvalidateWait(st.threads[t].s, st.threads[t].a)), t,
        Some(InvalidateWait(st.threads[t].s, st.threads[t].a)));
    } else {
      PlainInv(st, End(st, t), t, None);
    }
  }

  // ---- critical sections of Manager.mu

  /** Sessions stay, their logins and closing are untouched. */
  ghost predicate SameSessions(m: Mgr, m': Mgr) {
    m.objs.Keys <= m'.objs.Keys &&
    forall s :: s in m.objs ==> m'.objs[s].auth == m.objs[s].auth && m'.objs[s].closed == m.objs[s].closed
  }

  lemma AcquireShaped(m: Mgr, key: Key, password: string)
    requires MgrShaped(m)
    ensures MgrShaped(Acquire(m, key, password)) && SameSessions(m, Acquire(m, key, password))
    ensures Acquired(m, key) in Acquire(m, key, password).objs
  {}

  lemma StartInv(st: State, st': State, t: Tid)
    requires Inv(st) && t in st.threads && st.threads[t].StartHold?
    requires var pc := st.threads[t];
             st' == st.(threads := st.threads[t := AuthWait(Acquired(st.mgr, pc.key), ForStart(pc.device, pc.token))],
                        mgr := Acquire(st.mgr, pc.key, pc.password), mgrLock := None)
    ensures Inv(st')
  {
    var pc := st.threads[t];
    assert Edited(st.threads, st'.threads, t);
    ShapedMgr(st);
    AcquireShaped(st.mgr, pc.key, pc.password);
    StartSessions(st, st', t);
    LoginsKept(st, st', t);
    TokensKept(st, st', t);
    ShapedEdit(st, st', t);
    LocksEdit(st, st', t);
  }

  lemma SweptShaped(st: State, order: seq<Expiry>)
    requires Shaped(st) && Sweeps(st.mgr, order, st.now) && st.mgr.dead == []
    ensures var m' := Swept(st.mgr, order, st.now);
            && Shaped(st.(mgr := m')) && SameSessions(st.mgr, m') && st.mgr.objs.Keys == m'.objs.Keys
            && forall s :: s in m'.dead ==> s in m'.objs
  {
    SweptShrinks(st.mgr, order, st.now);
    ShrunkShaped(st, Swept(st.mgr, order, st.now));
  }

  lemma ShrunkShaped(st: State, m': Mgr)
    requires Shaped(st) && Shrinks(st.mgr, m') && st.mgr.dead == []
    ensures Shaped(st.(mgr := m')) && SameSessions(st.mgr, m') && st.mgr.objs.Keys == m'.objs.Keys
    ensures forall s :: s in m'.dead ==> s in m'.objs
  {}

  /** unlockAndRetire after a consistent critical section. */
  lemma RetireInv(st: State)
    requires Shaped(st) && Counted(st) && Unlocked(st) && forall s :: s in st.mgr.dead ==> s in st.mgr.objs
    ensures Inv(Retire(st))
  {
    RetireFrame(st);
    RetireCounted(st);
    RetiredLocks(st, Retire(st));
    RetiredShaped(st, Retire(st));
  }

  lemma SameFetch(st: State, st1: State, st2: State, t: Tid)
    requires FetchMoves(st, st1, t) && SameSessions(st1.mgr, st2.mgr) && st2.threads == st1.threads
    ensures FetchMoves(st, st2, t)
  {}

  /** gcLocked and unlockAndRetire at the end of a critical section that did `st1`. */
  lemma SweepInv(st: State, st1: State, t: Tid, order: seq<Expiry>)
    requires Locks(st) && Edited(st.threads, st1.threads, t) && MgrAt(st.threads, t) && !MgrAt(st1.threads, t)
    requires SessMoves(st, st1, t) && FetchMoves(st, st1, t)
    requires Shaped(st1) && Counted(st1) && st1.mgr.dead == [] && Sweeps(st1.mgr, order, st1.now)
    ensures Inv(Retire(st1.(mgr := Swept(st1.mgr, order, st1.now))))
  {
    var st2 := st1.(mgr := Swept(st1.mgr, order, st1.now));
    SweptCounted(st1, order);
    SweptShaped(st1, order);
    SameFetch(st, st1, st2, t);
    LeftIsUnlocked(st, st2, t);
    RetireInv(st2);
  }

  lemma GcInv(st: State, t: Tid, order: seq<Expiry>)
    requires Inv(st) && t in st.threads && st.threads[t].GcHold? && Sweeps(st.mgr, order, st.now)
    ensures Inv(Retire(End(st, t).(mgr := Swept(st.mgr, order, st.now))))
  {
    var st1 := End(st, t);
    PlainCounted(st, st1, t, None);
    ShapedMgr(st);
    ShapedEdit(st, st1, t);
    SweepInv(st, st1, t, order);
  }

  lemma RefusedInv(st: State, t: Tid)
    requires Inv(st) && t in st.threads && st.threads[t].ExchangeHold?
    ensures Inv(Retire(End(st, t)))
  {
    var st1 := End(st, t);
    PlainCounted(st, st1, t, None);
    ShapedMgr(st);
    ShapedEdit(st, st1, t);
    LeftIsUnlocked(st, st1, t);
    RetireInv(st1);
  }

  lemma InstallInv(st: State, t: Tid, order: seq<Expiry>)
    requires Inv(st) && t in st.threads && st.threads[t].InstallHold?
    requires EntriesKnown(Installed(st, st.threads[t])) && Sweeps(Installed(st, st.threads[t]), order, st.now)
    ensures Inv(Retire(End(st, t).(mgr := Swept(Installed(st, st.threads[t]), order, st.now))))
  {
    var st1 := End(st, t).(mgr := Installed(st, st.threads[t]));
    InstalledTokens(st, st1, t);
    InstalledSessions(st, st1, t);
    LoginsKept(st, st1, t);
    ShapedMgr(st);
    ShapedEdit(st, st1, t);
    SweepInv(st, st1, t, order);
  }

  lemma ReleaseInv(st: State, t: Tid)
    requires Inv(st) && t in st.threads && st.threads[t].ReleaseHold?
    ensures Inv(Retire(End(st, t).(mgr := Release(st.mgr, st.threads[t].s))))
  {
    var st1 := End(st, t).(mgr := Release(st.mgr, st.threads[t].s));
    ReleasedCounted(st, t);
    ReleaseShrinks(st.mgr, st.threads[t].s);
    ShapedMgr(st);
    ShapedEdit(st, st1, t);
    LeftIsUnlocked(st, st1, t);
    RetireInv(st1);
  }

  lemma ReleasedCounted(st: State, t: Tid)
    requires Inv(st) && t in st.threads && st.threads[t].ReleaseHold?
    ensures Counted(End(st, t).(mgr := Release(st.mgr, st.threads[t].s)))
  {
    var st1 := End(st, t).(mgr := Release(st.mgr, st.threads[t].s));
    ReleaseShrinks(st.mgr, st.threads[t].s);
    ReleasedSessions(st, st1, t);
    LoginsKept(st, st1, t);
    TokensKept(st, st1, t);
  }

  /** exchange's own writes: the token becomes a console and its caller goes on to log in. */
  function Redeemed(st: State, t: Tid): State
    requires t in st.threads && st.threads[t].ExchangeHold? && st.threads[t].token in st.mgr.tokens
  {
    var tok := st.threads[t].token;
    st.(threads := st.threads[t := AuthWait(st.mgr.tokens[tok].sess, ForRequest)],
        mgr := Exchanged(st, tok), nextToken := st.nextToken + 1, uses := st.uses + multiset{tok})
  }

  lemma RedeemedCounted(st: State, t: Tid)
    requires Counted(st) && t in st.threads && st.threads[t].ExchangeHold? && st.threads[t].token in st.mgr.tokens
    ensures Counted(Redeemed(st, t))
  {
    var st1 := Redeemed(st, t);
    assert Edited(st.threads, st1.threads, t);
    ExchangedTokens(st, st1, t, st.threads[t].token);
    ExchangedSessions(st, st1, t, st.threads[t].token);
    LoginsKept(st, st1, t);
  }

  lemma RedeemedShaped(st: State, t: Tid)
    requires Shaped(st) && t in st.threads && st.threads[t].ExchangeHold? && st.threads[t].token in st.mgr.tokens
    ensures Shaped(Redeemed(st, t)) && Edited(st.threads, Redeemed(st, t).threads, t)
  {
    var st1 := Redeemed(st, t);
    assert Edited(st.threads, st1.threads, t);
    ShapedMgr(st);
    ShapedEdit(st, st1, t);
  }

  lemma ExchangeInv(st: State, t: Tid, order: seq<Expiry>)
    requires Inv(st) && t in st.threads && st.threads[t].ExchangeHold? && st.threads[t].token in st.mgr.tokens
    requires EntriesKnown(Exchanged(st, st.threads[t].token))
          && Sweeps(Exchanged(st, st.threads[t].token), order, st.now)
    ensures Inv(Retire(Redeemed(st, t).(mgr := Swept(Exchanged(st, st.threads[t].token), order, st.now))))
  {
    RedeemedCounted(st, t);
    RedeemedShaped(st, t);
    SweepInv(st, Redeemed(st, t), t, order);
  }

  // ---- critical sections of a session's lock

  lemma LoginSessions(st: State, st': State, t: Tid, x: SessId, a: Option<Cred>, at: int)
    requires Sessions(st) && x in st.mgr.objs && (st.mgr.objs[x].closed ==> a.None?)
    requires st'.mgr == st.mgr.(objs := st.mgr.objs[x := st.mgr.objs[x].(auth := a, loggedAt := at)])
    requires Edited(st.threads, st'.threads, t)
    requires StartAt(st'.threads, t) == StartAt(st.threads, t)
    requires RetireAt(st'.threads, t) == RetireAt(st.threads, t)
    ensures Sessions(st')
  {
    ClosedBlank(st);
    SessionsKept(st, st', t);
  }

  lemma LoginShaped(m: Mgr, x: SessId, o: Session)
    requires MgrShaped(m) && x in m.objs && o.key == m.objs[x].key
    ensures MgrShaped(m.(objs := m.objs[x := o]))
  {}

  lemma LoginCounted(st: State, st': State, t: Tid)
    requires Inv(st) && t in st.threads && st.threads[t].Login?
    requires var pc := st.threads[t];
             st' == Continue(UnlockSess(st, pc.s), t, pc.s, pc.k, Some(st.nextCred))
                    .(mgr := st.mgr.(objs := st.mgr.objs[pc.s :=
                      st.mgr.objs[pc.s].(auth := Some(st.nextCred), loggedAt := st.now)]),
                      nextCred := st.nextCred + 1)
    ensures Counted(st')
  {
    var x := st.threads[t].s;
    assert Fetches(st.threads[t]);
    assert Edited(st.threads, st'.threads, t);
    LoginSessions(st, st', t, x, Some(st.nextCred), st.now);
    LoginStored(st, st', t, x);
    TokensKept(st, st', t);
  }

  lemma LoginInv(st: State, st': State, t: Tid)
    requires Inv(st) && t in st.threads && st.threads[t].Login?
    requires var pc := st.threads[t];
             st' == Continue(UnlockSess(st, pc.s), t, pc.s, pc.k, Some(st.nextCred))
                    .(mgr := st.mgr.(objs := st.mgr.objs[pc.s :=
                      st.mgr.objs[pc.s].(auth := Some(st.nextCred), loggedAt := st.now)]),
                      nextCred := st.nextCred + 1)
    ensures Inv(st')
  {
    var x := st.threads[t].s;
    LoginCounted(st, st', t);
    assert Edited(st.threads, st'.threads, t);
    ShapedMgr(st);
    LoginShaped(st.mgr, x, st'.mgr.objs[x]);
    ShapedEdit(st, st', t);
    LocksEdit(st, st', t);
  }

  lemma IgnoredInv(st: State, t: Tid)
    requires Inv(st) && t in st.threads && st.threads[t].InvalidateHold?
    ensures Inv(End(UnlockSess(st, st.threads[t].s), t))
  {
    PlainInv(st, End(UnlockSess(st, st.threads[t].s), t), t, None);
  }

  /** invalidate's critical section: the stored login is dropped and the lock given back. */
  function Dropped(st: State, t: Tid, retry: bool): State
    requires t in st.threads && st.threads[t].InvalidateHold? && st.threads[t].s in st.mgr.objs
  {
    var x := st.threads[t].s;
    st.(threads := if retry then st.threads[t := AuthWait(x, ForRequest)] else st.threads - {t},
        mgr := st.mgr.(objs := st.mgr.objs[x := st.mgr.objs[x].(auth := None)]),
        sessLock := st.sessLock - {x})
  }

  lemma DroppedInv(st: State, t: Tid, retry: bool)
    requires Inv(st) && t in st.threads && st.threads[t].InvalidateHold?
    ensures var st1 := Dropped(st, t, retry);
            Sessions(st1) && Tokens(st1) && Shaped(st1) && Locks(st1) && Edited(st.threads, st1.threads, t)
  {
    var x, st1 := st.threads[t].s, Dropped(st, t, retry);
    assert Edited(st.threads, st1.threads, t);
    LoginSessions(st, st1, t, x, None, st.mgr.objs[x].loggedAt);
    TokensKept(st, st1, t);
    ShapedMgr(st);
    LoginShaped(st.mgr, x, st1.mgr.objs[x]);
    ShapedEdit(st, st1, t);
    LocksEdit(st, st1, t);
  }

  lemma InvalidateInv(st: State, t: Tid, retry: bool)
    requires Inv(st) && t in st.threads && st.threads[t].InvalidateHold?
    requires st.mgr.objs[st.threads[t].s].auth == Some(st.threads[t].a)
    ensures Inv(Spawn(Dropped(st, t, retry), Logout(st.threads[t].a)))
  {
    var st1, a, u := Dropped(st, t, retry), st.threads[t].a, st.nextTid;
    var st' := Spawn(st1, Logout(a));
    DroppedInv(st, t, retry);
    assert u !in st1.threads && u !in st.threads;
    assert Edited(st1.threads, st'.threads, u);
    LoginLeaves(st, st', t, u, st1.threads, st.threads[t].s, a);
    SpawnedInv(st1, st', a);
  }

  lemma SpawnedInv(st: State, st': State, a: Cred)
    requires Sessions(st) && Tokens(st) && Shaped(st) && Locks(st) && st.mgr.dead == []
    requires st' == Spawn(st, Logout(a)) && Logins(st')
    ensures Inv(st')
  {
    var u := st.nextTid;
    assert u !in st.threads;
    assert Edited(st.threads, st'.threads, u);
    ClosedBlank(st);
    SessionsKept(st, st', u);
    TokensKept(st, st', u);
    ShapedMgr(st);
    ShapedEdit(st, st', u);
    LocksEdit(st, st', u);
  }

  /** retire's critical section: the session is closed and its login, if any, goes to a logout. */
  function Closed(st: State, t: Tid): State
    requires t in st.threads && st.threads[t].RetireHold? && st.threads[t].s in st.mgr.objs
  {
    var x := st.threads[t].s;
    var o := st.mgr.objs[x];
    st.(threads := if o.auth.Some? then st.threads[t := Logout(o.auth.value)] else st.threads - {t},
        mgr := st.mgr.(objs := st.mgr.objs[x := o.(auth := None, closed := true)]),
        sessLock := st.sessLock - {x})
  }

  lemma CloseCounted(st: State, t: Tid)
    requires Inv(st) && t in st.threads && st.threads[t].RetireHold?
    ensures Counted(Closed(st, t))
  {
    var x, st' := st.threads[t].s, Closed(st, t);
    var o := st.mgr.objs[x];
    assert Edited(st.threads, st'.threads, t);
    ClosedSessions(st, st', t);
    if o.auth.Some? {
      LoginLeaves(st, st', t, t, st.threads, x, o.auth.value);
    } else {
      LoginsKept(st, st', t);
    }
    TokensKept(st, st', t);
  }

  lemma RetireBodyInv(st: State, t: Tid)
    requires Inv(st) && t in st.threads && st.threads[t].RetireHold?
    ensures Inv(Closed(st, t))
  {
    var x, st' := st.threads[t].s, Closed(st, t);
    CloseCounted(st, t);
    assert Edited(st.threads, st'.threads, t);
    ShapedMgr(st);
    LoginShaped(st.mgr, x, st'.mgr.objs[x]);
    ShapedEdit(st, st', t);
    LocksEdit(st, st', t);
  }

  lemma LogoutInv(st: State, st': State, t: Tid)
    requires Inv(st) && t in st.threads && st.threads[t].Logout?
    requires st' == End(st, t).(outs := st.outs + multiset{st.threads[t].a})
    ensures Inv(st')
  {
    assert Edited(st.threads, st'.threads, t);
    ClosedBlank(st);
    SessionsKept(st, st', t);
    LoggedOut(st, st', t);
    TokensKept(st, st', t);
    ShapedMgr(st);
    ShapedEdit(st, st', t);
    LocksEdit(st, st', t);
  }

  // ---- dispatch

  predicate Arrives(step: Step) {
    step.NewStart? || step.NewRequest? || step.NewGc?
  }

  lemma ArriveInv(st: State, step: Step)
    requires Inv(st) && Enabled(st, step) && Arrives(step)
    ensures Inv(Apply(st, step))
  {
    var pc := match step
      case NewStart(d, k, p) => StartWait(d, k, p, st.nextToken)
      case NewRequest(tok, d, console) => if console then ConsoleWait(tok, d) else ExchangeWait(tok, d)
      case NewGc => GcWait;
    SpawnInv(st, Apply(st, step), pc);
  }

  predicate TakesLock(step: Step) {
    step.Tick? || step.LockMgr? || step.LockSess?
  }

  lemma LockInv(st: State, step: Step)
    requires Inv(st) && Enabled(st, step) && TakesLock(step)
    ensures Inv(Apply(st, step))
  {
    match step
    case Tick(d) => TickInv(st, d);
    case LockMgr(t) => LockMgrInv(st, t);
    case LockSess(t) => LockSessInv(st, t);
  }

  predicate InMgr(step: Step) {
    step.StartBody? || step.InstallBody? || step.ReleaseBody? || step.ConsoleBody? || step.GcBody?
  }

  lemma MgrBodyInv(st: State, step: Step)
    requires Inv(st) && Enabled(st, step) && InMgr(step)
    ensures Inv(Apply(st, step))
  {
    match step
    case StartBody(t) => StartInv(st, Apply(st, step), t);
    case InstallBody(t, order) => InstallInv(st, t, order);
    case ReleaseBody(t) => ReleaseInv(st, t);
    case ConsoleBody(t) =>
      var pc, c := st.threads[t], st.mgr.consoles;
      ConsoleInv(st, t, if pc.token in c && st.now < c[pc.token].expires && c[pc.token].device == pc.device
                        then Some(AuthWait(c[pc.token].sess, ForRequest)) else None);
    case GcBody(t, order) => GcInv(st, t, order);
  }

  lemma ExchangeBodyInv(st: State, t: Tid, randFails: bool, order: seq<Expiry>)
    requires Inv(st) && Enabled(st, ExchangeBody(t, randFails, order))
    ensures Inv(Apply(st, ExchangeBody(t, randFails, order)))
  {
    if !Exchanges(st, st.threads[t].token, st.threads[t].device) || randFails {
      RefusedInv(st, t);
    } else {
      ExchangeInv(st, t, order);
    }
  }

  lemma SessBodyInv(st: State, step: Step)
    requires Inv(st) && Enabled(st, step) && !InMgr(step) && !Arrives(step) && !TakesLock(step) && !step.ExchangeBody?
    ensures Inv(Apply(st, step))
  {
    match step
    case AuthBody(t) => AuthInv(st, t);
    case CredsBody(t) => CredsInv(st, t);
    case LoginOk(t) => LoginInv(st, Apply(st, step), t);
    case LoginFail(t) => ContinueInv(st, t, st.threads[t].s, st.threads[t].k, None);
    case ProxyEnds(t) => ProxyInv(st, t, false);
    case ProxyRefused(t) => ProxyInv(st, t, true);
    case InvalidateBody(t, retry) =>
      if Blames(st, st.threads[t].s, st.threads[t].a) {
        InvalidateInv(st, t, retry);
      } else {
        IgnoredInv(st, t);
      }
    case RetireBody(t) => RetireBodyInv(st, t);
    case LogoutDone(t) => LogoutInv(st, Apply(st, step), t);
  }

  /** Whatever step is possible, it keeps the invariant. */
  lemma StepInv(st: State, step: Step)
    requires Inv(st) && Enabled(st, step)
    ensures Inv(Apply(st, step))
  {
    if Arrives(step) {
      ArriveInv(st, step);
    } else if TakesLock(step) {
      LockInv(st, step);
    } else if InMgr(step) {
      MgrBodyInv(st, step);
    } else if step.ExchangeBody? {
      ExchangeBodyInv(st, step.t, step.randFails, step.order);
    } else {
      SessBodyInv(st, step);
    }
  }
}
